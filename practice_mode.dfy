/**
 * The practice arena of app/components/practice-mode.tsx: the countdown
 * timer and its "m:ss" display, the hint cursor, the test cases forwarded
 * to the runner, the starter code, and what an accepted submission does to
 * the user's statistics and to the problem record.
 */
module PracticeMode {
  import opened Wrappers
  import opened Text

  // ---------------------------------------------------------------------------
  // The clock display
  // ---------------------------------------------------------------------------

  /** `secs.toString().padStart(2, "0")` for a seconds count below 60. */
  function SecondsField(secs: nat): (r: string)
    requires secs < 60
    ensures |r| == 2 && AllDigits(r) && DigitsValue(r) == secs
  {
    NatToStringRoundTrip(secs);
    var digits := NatToString(secs);
    if secs < 10 then
      var r := PadStart(digits, 2, '0');
      assert r == ['0'] + digits;
      assert r[..1] == ['0'] && r[..1][..0] == [];
      r
    else
      assert |digits| == |NatToString(secs / 10)| + 1;
      PadStart(digits, 2, '0')
  }

  /**
   * `formatTime(seconds)`: the whole minutes in decimal, ":", then the
   * remaining seconds as exactly two digits, so the two fields, read back,
   * give `seconds`.
   */
  function FormatTime(seconds: nat): (r: string)
    ensures |r| >= 4 && r[|r| - 3] == ':'
    ensures AllDigits(r[..|r| - 3]) && AllDigits(r[|r| - 2..])
    ensures DigitsValue(r[|r| - 2..]) < 60
    ensures DigitsValue(r[..|r| - 3]) * 60 + DigitsValue(r[|r| - 2..]) == seconds
    ensures |r| > 4 ==> r[0] != '0'
  {
    var mins := NatToString(seconds / 60);
    NatToStringRoundTrip(seconds / 60);
    var secs := SecondsField(seconds % 60);
    DisplayFields(mins, secs);
    mins + [':'] + secs
  }

  /** The minutes field is the decimal rendering of the whole minutes, as `${mins}` prints it. */
  lemma FormatTimeMinutes(seconds: nat)
    ensures var r := FormatTime(seconds); r[..|r| - 3] == NatToString(seconds / 60)
  {
    DisplayFields(NatToString(seconds / 60), SecondsField(seconds % 60));
  }

  /** The two fields of `mins + ":" + secs` are `mins` and `secs`. */
  lemma DisplayFields(mins: string, secs: string)
    requires |secs| == 2 && mins != []
    ensures var r := mins + [':'] + secs;
            |r| >= 4 && r[|r| - 3] == ':' && r[..|r| - 3] == mins && r[|r| - 2..] == secs
  {
    var r := mins + [':'] + secs;
    assert r[..|r| - 3] == mins;
    assert r[|r| - 2..] == secs;
  }

  /** Reads an "m:ss" display back: digits, the first ":", then digits. */
  function ParseTime(text: string): (seconds: Option<nat>)
  {
    match IndexOf(text, ":")
    case None => None
    case Some(i) =>
      if i < |text| && AllDigits(text[..i]) && AllDigits(text[i + 1..]) then
        Some(DigitsValue(text[..i]) * 60 + DigitsValue(text[i + 1..]))
      else
        None
  }

  /** A run of digits holds no ":". */
  lemma {:induction false} DigitsHaveNoColon(s: string, j: nat)
    requires AllDigits(s) && j <= |s|
    ensures forall k :: 0 <= k < j ==> !OccursAt(s, ":", k)
  {
    forall k | 0 <= k < j ensures !OccursAt(s, ":", k) {
      assert IsDigit(s[k]);
      assert s[k..k + 1] == [s[k]];
    }
  }

  /** The display reads back as the seconds it shows. */
  lemma {:induction false} FormatTimeRoundTrip(seconds: nat)
    ensures ParseTime(FormatTime(seconds)) == Some(seconds)
  {
    ParseDisplay(FormatTime(seconds));
  }

  /** A display of digits, ":", then two digits reads back field by field. */
  lemma {:induction false} ParseDisplay(r: string)
    requires |r| >= 4 && r[|r| - 3] == ':'
    requires AllDigits(r[..|r| - 3]) && AllDigits(r[|r| - 2..])
    ensures ParseTime(r) == Some(DigitsValue(r[..|r| - 3]) * 60 + DigitsValue(r[|r| - 2..]))
  {
    var i := |r| - 3;
    assert OccursAt(r, ":", i) by {
      assert r[i..i + 1] == [':'];
    }
    DigitsHaveNoColon(r[..i], i);
    forall k | 0 <= k < i ensures !OccursAt(r, ":", k) {
      assert r[k] == r[..i][k];
      assert !OccursAt(r[..i], ":", k);
    }
    assert Contains(r, ":");
    var found := IndexOf(r, ":");
    assert found.value == i;
  }

  /** Different times show differently. */
  lemma FormatTimeInjective(s: nat, t: nat)
    ensures FormatTime(s) == FormatTime(t) ==> s == t
  {
    FormatTimeRoundTrip(s);
    FormatTimeRoundTrip(t);
  }

  // ---------------------------------------------------------------------------
  // The countdown
  // ---------------------------------------------------------------------------

  /** `isTimerActive` and `timeLeft`. */
  datatype Timer = Timer(active: bool, timeLeft: int)

  /** `startPractice`: the clock runs from the problem's time limit. */
  function StartPractice(timeLimit: int): (t: Timer)
    ensures t.active && t.timeLeft == timeLimit
  {
    Timer(true, timeLimit)
  }

  /**
   * One run of the timer effect followed by the interval firing: a running
   * clock above 0 drops by one second; a clock at 0 stops; anything else is
   * left alone.
   */
  function Tick(t: Timer): (r: Timer)
    ensures t.timeLeft >= 0 ==> r.timeLeft >= 0
    ensures r.timeLeft == t.timeLeft || (t.active && r.timeLeft == t.timeLeft - 1)
    ensures t.timeLeft == 0 ==> r == Timer(false, 0)
    ensures r.active ==> t.active
    ensures t.active && t.timeLeft > 0 ==> r == Timer(true, t.timeLeft - 1)
    ensures !(t.active && t.timeLeft > 0) && t.timeLeft != 0 ==> r == t
  {
    if t.active && t.timeLeft > 0 then Timer(true, t.timeLeft - 1)
    else if t.timeLeft == 0 then Timer(false, t.timeLeft)
    else t
  }

  /** The timer after `k` ticks. */
  function Ticks(t: Timer, k: nat): Timer
    decreases k
  {
    if k == 0 then t else Ticks(Tick(t), k - 1)
  }

  /** A running clock counts down one second per tick. */
  lemma {:induction false} CountsDown(n: nat, k: nat)
    requires k <= n
    ensures Ticks(Timer(true, n), k) == Timer(true, n - k)
    decreases k
  {
    if k > 0 {
      CountsDown(n - 1, k - 1);
    }
  }

  /** Started at `n` seconds, the clock stops at 0 after `n + 1` ticks and then stays there. */
  lemma {:induction false} RunsOut(n: nat, extra: nat)
    ensures Ticks(StartPractice(n), n + 1 + extra) == Timer(false, 0)
    decreases extra
  {
    if extra == 0 {
      CountsDown(n, n);
      TicksSplit(Timer(true, n), n, 1);
    } else {
      RunsOut(n, extra - 1);
      TicksSplit(StartPractice(n), n + extra, 1);
    }
  }

  /** `k + m` ticks are `k` ticks followed by `m`. */
  lemma {:induction false} TicksSplit(t: Timer, k: nat, m: nat)
    ensures Ticks(t, k + m) == Ticks(Ticks(t, k), m)
    decreases k
  {
    if k > 0 {
      TicksSplit(Tick(t), k - 1, m);
    }
  }

  // ---------------------------------------------------------------------------
  // Hints
  // ---------------------------------------------------------------------------

  /** `nextHint`: one hint on while another remains. */
  function NextHint(currentHint: int, hintCount: int): (r: int)
    ensures 0 <= currentHint < hintCount ==> 0 <= r < hintCount
    ensures r == currentHint || r == currentHint + 1
    ensures r == currentHint + 1 <==> currentHint < hintCount - 1
  {
    if currentHint < hintCount - 1 then currentHint + 1 else currentHint
  }

  /** Pressing "next hint" `k` times moves `k` hints on, but never past the last hint. */
  lemma {:induction false} HintsStopAtLast(currentHint: int, hintCount: int, k: nat)
    requires 0 <= currentHint < hintCount
    ensures NextHints(currentHint, hintCount, k) ==
              if currentHint + k < hintCount then currentHint + k else hintCount - 1
    decreases k
  {
    if k > 0 {
      HintsStopAtLast(NextHint(currentHint, hintCount), hintCount, k - 1);
    }
  }

  /** The hint shown after `k` presses. */
  function NextHints(currentHint: int, hintCount: int, k: nat): int
    decreases k
  {
    if k == 0 then currentHint else NextHints(NextHint(currentHint, hintCount), hintCount, k - 1)
  }

  // ---------------------------------------------------------------------------
  // Test cases and starter code
  // ---------------------------------------------------------------------------

  /** A problem's test case; `hidden` may be absent. */
  datatype ProblemCase = ProblemCase(input: string, expected: string, hidden: Option<bool>)

  /** A test case as forwarded to the runner. */
  datatype RunnerCase = RunnerCase(input: string, expected: string, hidden: bool)

  /** `testCases.map(...)` in `runCode`: same order, input and expected; `hidden` defaults to false. */
  function FormatTestCases(cases: seq<ProblemCase>): (r: seq<RunnerCase>)
    ensures |r| == |cases|
    ensures forall i :: 0 <= i < |r| ==>
      r[i].input == cases[i].input && r[i].expected == cases[i].expected
      && (r[i].hidden <==> cases[i].hidden == Some(true))
  {
    seq(|cases|, i requires 0 <= i < |cases| =>
      RunnerCase(cases[i].input, cases[i].expected, cases[i].hidden.Some? && cases[i].hidden.value))
  }

  /** A problem's starter code: the template used and the header it fills in. */
  datatype StarterCode = StarterCode(languageKey: string, title: string, difficulty: string, timeLimit: string)

  /** `getInitialCode`: the JavaScript template for any language other than python and java. */
  function InitialCode(language: string, title: string, difficulty: string, timeLimit: nat): (r: StarterCode)
    ensures r.languageKey in {"javascript", "python", "java"}
    ensures r.languageKey == language <==> language in {"javascript", "python", "java"}
    ensures ParseTime(r.timeLimit) == Some(timeLimit)
    ensures r.timeLimit == FormatTime(timeLimit)
    ensures r.title == title && r.difficulty == difficulty
  {
    FormatTimeRoundTrip(timeLimit);
    StarterCode(if language in {"javascript", "python", "java"} then language else "javascript",
                title, difficulty, FormatTime(timeLimit))
  }

  // ---------------------------------------------------------------------------
  // Accepted submissions
  // ---------------------------------------------------------------------------

  /** `userStats`; `rank`, `level` and `nextLevelXP` are carried along unchanged. */
  datatype UserStats = UserStats(
    totalSolved: int,
    totalAttempts: int,
    averageTime: int,
    currentStreak: int,
    bestStreak: int,
    totalPoints: int,
    rank: string,
    level: int,
    xp: int,
    nextLevelXP: int)

  /** The statistics the page starts with. */
  const InitialStats := UserStats(12, 28, 420, 5, 8, 1250, "Algorithm Apprentice", 3, 1250, 2000)

  /**
   * The `setUserStats` updater of an accepted submission: one more attempt
   * and one more in the streak, the problem's points added to both the
   * points and the experience, and a solve counted only for a problem not
   * solved before.
   */
  function AcceptedStats(prev: UserStats, wasSolved: bool, points: int): (r: UserStats)
    ensures r.totalSolved == prev.totalSolved + (if wasSolved then 0 else 1)
    ensures r.totalAttempts == prev.totalAttempts + 1 && r.currentStreak == prev.currentStreak + 1
    ensures r.bestStreak >= r.currentStreak && r.bestStreak >= prev.bestStreak
    ensures r.bestStreak == prev.bestStreak || r.bestStreak == r.currentStreak
    ensures r.totalPoints - prev.totalPoints == points && r.xp - prev.xp == points
    ensures r.averageTime == prev.averageTime && r.rank == prev.rank && r.level == prev.level
    ensures r.nextLevelXP == prev.nextLevelXP
  {
    var streak := prev.currentStreak + 1;
    prev.(totalSolved := prev.totalSolved + (if wasSolved then 0 else 1),
          totalAttempts := prev.totalAttempts + 1,
          currentStreak := streak,
          bestStreak := if prev.bestStreak >= streak then prev.bestStreak else streak,
          totalPoints := prev.totalPoints + points,
          xp := prev.xp + points)
  }

  /** What the statistics keep: no more solves than attempts, a best streak at least the current one, points equal to experience. */
  predicate StatsConsistent(s: UserStats) {
    0 <= s.totalSolved <= s.totalAttempts && 0 <= s.currentStreak <= s.bestStreak && s.totalPoints == s.xp
  }

  /** The initial statistics are consistent and every accepted submission keeps them so. */
  lemma AcceptedKeepsConsistent(prev: UserStats, wasSolved: bool, points: int)
    ensures StatsConsistent(InitialStats)
    ensures StatsConsistent(prev) ==> StatsConsistent(AcceptedStats(prev, wasSolved, points))
  {
  }

  /** Solving the same problem twice counts one solve but two attempts and both awards. */
  lemma SolvedCountsOnce(prev: UserStats, points: int)
    ensures var twice := AcceptedStats(AcceptedStats(prev, false, points), true, points);
      twice.totalSolved == prev.totalSolved + 1 && twice.totalAttempts == prev.totalAttempts + 2
      && twice.totalPoints == prev.totalPoints + 2 * points
  {
  }

  /**
   * The best time after an accepted submission with `timeLeft` seconds on
   * the clock: replaced when unset or 0 (falsy), or when `timeLeft` is
   * larger.
   */
  function NewBestTime(bestTime: Option<int>, timeLeft: int): (r: Option<int>)
    ensures r.Some?
    ensures bestTime.None? ==> r == Some(timeLeft)
    ensures bestTime.Some? && bestTime.value >= 0 && timeLeft >= 0 ==>
              r.value >= bestTime.value && r.value >= timeLeft && (r.value == bestTime.value || r.value == timeLeft)
  {
    if bestTime.None? || bestTime.value == 0 || timeLeft > bestTime.value then Some(timeLeft) else bestTime
  }

  /** The best time after a series of accepted submissions. */
  function BestTimeAfter(bestTime: Option<int>, times: seq<int>): Option<int>
    decreases |times|
  {
    if times == [] then bestTime else BestTimeAfter(NewBestTime(bestTime, times[0]), times[1..])
  }

  /**
   * With non-negative clocks the falsy-zero test does no harm: after a
   * series of accepted submissions, starting with no best time, the best
   * time is the largest time left of the series.
   */
  lemma {:induction false} BestTimeIsLargest(bestTime: Option<int>, times: seq<int>)
    requires times != [] && forall i :: 0 <= i < |times| ==> times[i] >= 0
    requires bestTime.None? || bestTime.value >= 0
    ensures var r := BestTimeAfter(bestTime, times);
      && r.Some?
      && (forall i :: 0 <= i < |times| ==> times[i] <= r.value)
      && (r == bestTime || exists i :: 0 <= i < |times| && times[i] == r.value)
      && (bestTime.Some? ==> bestTime.value <= r.value)
    decreases |times|
  {
    var next := NewBestTime(bestTime, times[0]);
    if |times| > 1 {
      BestTimeIsLargest(next, times[1..]);
      var r := BestTimeAfter(bestTime, times);
      assert r == BestTimeAfter(next, times[1..]);
      forall i | 0 <= i < |times| ensures times[i] <= r.value {
        if i > 0 {
          assert times[i] == times[1..][i - 1];
        }
      }
      if r != bestTime && r != next {
        var j :| 0 <= j < |times[1..]| && times[1..][j] == r.value;
        assert times[j + 1] == r.value;
      }
    } else {
      assert BestTimeAfter(next, times[1..]) == next;
    }
  }

  /** A practice problem's progress, which an accepted submission updates in place. */
  class PracticeProblem {
    const points: int
    var solved: bool
    var attempts: int
    var bestTime: Option<int>

    constructor(points: int, solved: bool, attempts: int, bestTime: Option<int>)
      ensures this.points == points && this.solved == solved && this.attempts == attempts
      ensures this.bestTime == bestTime
    {
      this.points := points;
      this.solved := solved;
      this.attempts := attempts;
      this.bestTime := bestTime;
    }

    /**
     * The submission branch of `runCode`: when every test passed on a
     * submission, the statistics are updated (reading `solved` before it is
     * set) and the problem is marked solved, one attempt is added and the
     * best time is updated; otherwise nothing changes.
     */
    method RecordResult(stats: UserStats, allPassed: bool, isSubmitting: bool, timeLeft: int)
      returns (newStats: UserStats)
      modifies this
      ensures allPassed && isSubmitting ==>
        && newStats == AcceptedStats(stats, old(solved), points)
        && solved && attempts == old(attempts) + 1
        && bestTime == NewBestTime(old(bestTime), timeLeft)
      ensures !(allPassed && isSubmitting) ==>
        newStats == stats && solved == old(solved) && attempts == old(attempts) && bestTime == old(bestTime)
    {
      newStats := stats;
      if allPassed && isSubmitting {
        newStats := AcceptedStats(stats, solved, points);
        solved := true;
        attempts := attempts + 1;
        if bestTime.None? || bestTime.value == 0 || timeLeft > bestTime.value {
          bestTime := Some(timeLeft);
        }
      }
    }
  }
}
