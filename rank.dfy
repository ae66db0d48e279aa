/** src/App.tsx: the experience points, level, progress bar and title shown in the
    sidebar, recomputed whenever the active tab changes once setup is complete. */
module Rank {
  import opened Model
  import opened Storage

  /** The syllabus records that are marked completed. */
  function CompletedKeys(status: Status): set<string> {
    set k | k in status && status[k].completed
  }

  /** The experience points: 100 per mock, 50 per daily log, 200 per completed record. */
  function Xp(mocks: nat, logs: nat, status: Status): nat {
    100 * mocks + 50 * logs + 200 * |CompletedKeys(status)|
  }

  /** `Object.values(syllabus).forEach(s => { if (s.completed) xp += 200; })`, starting
      from the points for mocks and logs. */
  method AddSyllabusXp(base: int, status: Status) returns (xp: int)
    ensures xp == base + 200 * |CompletedKeys(status)|
  {
    xp := base;
    var remaining := status.Keys;
    ghost var done: set<string> := {};
    while remaining != {}
      invariant remaining !! done && remaining + done == status.Keys
      invariant xp == base + 200 * |CompletedAmong(status, done)|
      decreases |remaining|
    {
      var k :| k in remaining;
      CompletedAdd(status, done, k);
      if status[k].completed {
        xp := xp + 200;
      }
      remaining := remaining - {k};
      done := done + {k};
    }
    AllVisited(status);
  }

  lemma AllVisited(status: Status)
    ensures CompletedAmong(status, status.Keys) == CompletedKeys(status)
  {
  }

  /** The completed records among the keys `done`. */
  ghost function CompletedAmong(status: Status, done: set<string>): set<string> {
    set x | x in done && x in status && status[x].completed
  }

  /** Visiting one more key adds it to the completed ones exactly when it is completed. */
  lemma CompletedAdd(status: Status, done: set<string>, k: string)
    requires k in status && k !in done
    ensures |CompletedAmong(status, done + {k})| ==
      |CompletedAmong(status, done)| + (if status[k].completed then 1 else 0)
  {
    if status[k].completed {
      assert CompletedAmong(status, done + {k}) == CompletedAmong(status, done) + {k};
    } else {
      assert CompletedAmong(status, done + {k}) == CompletedAmong(status, done);
    }
  }

  datatype RankInfo = RankInfo(title: string, level: int, progress: real)

  const InitialRank := RankInfo("Novice", 1, 0.0)

  /** `Math.floor(xp / 500) + 1`. */
  function Level(xp: nat): (l: int)
    ensures l >= 1
    ensures 500 * (l - 1) <= xp < 500 * l
  {
    xp / 500 + 1
  }

  /** `(xp % 500) / 500 * 100`: how far into the current level, in percent. */
  function Progress(xp: nat): (p: real)
    ensures 0.0 <= p < 100.0
    ensures p * 5.0 == (xp - 500 * (Level(xp) - 1)) as real
  {
    ((xp % 500) as real) / 500.0 * 100.0
  }

  function Title(level: int): string {
    if level > 15 then "Iron Architect" else if level > 5 then "Adept Forger" else "Novice Smith"
  }

  /** The position of a title in the ladder. */
  function Tier(title: string): int {
    if title == "Iron Architect" then 2 else if title == "Adept Forger" then 1 else 0
  }

  /** The title never drops as the level rises, and each title covers its band. */
  lemma TitleMonotone(a: int, b: int)
    requires a <= b
    ensures Tier(Title(a)) <= Tier(Title(b))
    ensures Tier(Title(a)) == (if a > 15 then 2 else if a > 5 then 1 else 0)
  {
  }

  function RankOf(xp: nat): RankInfo {
    RankInfo(Title(Level(xp)), Level(xp), Progress(xp))
  }

  /** More points never mean a lower level or title. */
  lemma RankMonotone(x: nat, y: nat)
    requires x <= y
    ensures RankOf(x).level <= RankOf(y).level
    ensures Tier(RankOf(x).title) <= Tier(RankOf(y).title)
  {
    TitleMonotone(Level(x), Level(y));
  }

  /** Completing one more syllabus record adds 200 points. */
  lemma CompletingAddsXp(mocks: nat, logs: nat, status: Status, key: string, r: StatusRecord)
    requires key !in CompletedKeys(status) && r.completed
    ensures Xp(mocks, logs, status[key := r]) == Xp(mocks, logs, status) + 200
  {
    assert CompletedKeys(status[key := r]) == CompletedKeys(status) + {key};
  }

  /** `calculateRank`. */
  method CalculateRank(s: LocalStorage) returns (info: RankInfo)
    ensures info == RankOf(Xp(|GetMocks(s)|, |GetDailyLogs(s)|, GetSyllabusStatus(s)))
    ensures info.level >= 1 && 0.0 <= info.progress < 100.0
  {
    var mocks := GetMocks(s);
    var logs := GetDailyLogs(s);
    var syllabus := GetSyllabusStatus(s);
    var xp := AddSyllabusXp(|mocks| * 100 + |logs| * 50, syllabus);
    var level := xp / 500 + 1;
    var progress := ((xp % 500) as real) / 500.0 * 100.0;
    var title := if level > 5 then "Adept Forger" else "Novice Smith";
    if level > 15 {
      title := "Iron Architect";
    }
    info := RankInfo(title, level, progress);
  }

  /** The app shell's setup flag and rank. */
  class Shell {
    var rankInfo: RankInfo
    var isSetup: bool
    var checkingSetup: bool

    constructor ()
      ensures rankInfo == InitialRank && !isSetup && checkingSetup
    {
      rankInfo := InitialRank;
      isSetup := false;
      checkingSetup := true;
    }

    /** The effect run on mount and on every tab change: read the setup flag, and only
        after setup recompute the rank. */
    method Refresh(s: LocalStorage)
      modifies this
      ensures isSetup == GetUserProfile(s).isSetupComplete && !checkingSetup
      ensures isSetup ==> rankInfo == RankOf(Xp(|GetMocks(s)|, |GetDailyLogs(s)|, GetSyllabusStatus(s)))
      ensures !isSetup ==> rankInfo == old(rankInfo)
    {
      var profile := GetUserProfile(s);
      isSetup := profile.isSetupComplete;
      checkingSetup := false;
      if profile.isSetupComplete {
        rankInfo := CalculateRank(s);
      }
    }

    /** `handleOnboardingComplete`. */
    method OnboardingComplete(s: LocalStorage)
      modifies this
      ensures isSetup && checkingSetup == old(checkingSetup)
      ensures rankInfo == RankOf(Xp(|GetMocks(s)|, |GetDailyLogs(s)|, GetSyllabusStatus(s)))
    {
      isSetup := true;
      rankInfo := CalculateRank(s);
    }
  }
}
