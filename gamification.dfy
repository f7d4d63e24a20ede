/** XP and levels: the counters in a user's `stats` record and the addXp rule
    that raises them (script.js addXp). */
module Gamification {
  import opened Notifications

  /** user.stats; `lastActive` is the day number of toDateString(). */
  datatype Stats = Stats(level: nat, xp: nat, tasksCompleted: nat, timeTracked: nat,
                         streak: nat, lastActive: int)

  const XpPerLevel: nat := 100
  const TaskCreatedXp: nat := 5
  const TaskCompletedXp: nat := 10

  /** addXp: xp rises by the award and, when the new total reaches
      level * 100, the level rises by one. The test is made once per call. */
  function GainXp(st: Stats, amount: nat): (r: Stats)
    ensures r.xp == st.xp + amount
    ensures r.level == st.level || r.level == st.level + 1
    ensures r.level == st.level + 1 <==> r.xp >= st.level * XpPerLevel
    ensures r.(xp := st.xp, level := st.level) == st
  {
    var xp := st.xp + amount;
    st.(xp := xp, level := if xp >= st.level * XpPerLevel then st.level + 1 else st.level)
  }

  /** The entries addXp puts on the notification log: one "Level Up!" entry
      naming the new level when the level rose, none otherwise. */
  function LevelUpNotes(st: Stats, amount: nat): (notes: seq<Notification>)
    ensures |notes| <= 1
    ensures notes != [] <==> GainXp(st, amount).level > st.level
    ensures notes != [] ==> notes[0] == LevelUpNotice(GainXp(st, amount).level) && notes[0].kind == Success
  {
    var r := GainXp(st, amount);
    if r.level > st.level then [LevelUpNotice(r.level)] else []
  }

  /** The level is one more than the completed hundreds of xp. */
  ghost predicate LevelMatchesXp(st: Stats) {
    st.level == st.xp / XpPerLevel + 1
  }

  /** For awards of at most 100 xp (the app awards 5, 10 and 0), the
      single-step rule keeps the level equal to xp / 100 + 1. */
  lemma GainXpKeepsLevelFormula(st: Stats, amount: nat)
    requires LevelMatchesXp(st)
    requires amount <= XpPerLevel
    ensures LevelMatchesXp(GainXp(st, amount))
  {
    var q := st.xp / XpPerLevel;
    var x := st.xp + amount;
    assert q * 100 <= st.xp < q * 100 + 100;
    if x >= (q + 1) * 100 {
      assert x < (q + 2) * 100;
      assert x / 100 == q + 1;
    } else {
      assert x / 100 == q;
    }
  }

  /** Where the level agrees with the xp, an award of 0 (markAllCompleted's)
      changes nothing and announces nothing. */
  lemma ZeroAwardChangesNothing(st: Stats)
    requires LevelMatchesXp(st)
    ensures GainXp(st, 0) == st && LevelUpNotes(st, 0) == []
  {
  }

  /** An award that crosses two thresholds still gains only one level. */
  lemma GainXpRisesOneLevelOnly()
    ensures var st := Stats(1, 0, 0, 0, 0, 0);
            GainXp(st, 250).level == 2 && !LevelMatchesXp(GainXp(st, 250))
  {
  }

  /** One task completion inside toggleTask: addXp(10), then tasksCompleted++. */
  function CompleteOne(st: Stats): (r: Stats)
    ensures r.tasksCompleted == st.tasksCompleted + 1
    ensures r.xp == st.xp + TaskCompletedXp
  {
    var s := GainXp(st, TaskCompletedXp);
    s.(tasksCompleted := s.tasksCompleted + 1)
  }

  /** The stats after k completions in a row. */
  function CompletionAwards(st: Stats, k: nat): Stats {
    if k == 0 then st else CompleteOne(CompletionAwards(st, k - 1))
  }

  /** The level-up entries those k completions put on the log, newest first. */
  function CompletionNotes(st: Stats, k: nat): seq<Notification> {
    if k == 0 then [] else LevelUpNotes(CompletionAwards(st, k - 1), TaskCompletedXp) + CompletionNotes(st, k - 1)
  }

  /** One more completion extends the stats and the log of the first k. */
  lemma CompletionStep(st: Stats, k: nat)
    ensures CompletionAwards(st, k + 1) == CompleteOne(CompletionAwards(st, k))
    ensures CompletionNotes(st, k + 1) == LevelUpNotes(CompletionAwards(st, k), TaskCompletedXp) + CompletionNotes(st, k)
  {
  }

  /** k completions add 10 xp and one completed task each, raise the level by
      at most k, and touch nothing else. */
  lemma {:induction false} CompletionAwardsTotals(st: Stats, k: nat)
    ensures CompletionAwards(st, k).xp == st.xp + k * TaskCompletedXp
    ensures CompletionAwards(st, k).tasksCompleted == st.tasksCompleted + k
    ensures st.level <= CompletionAwards(st, k).level <= st.level + k
    ensures CompletionAwards(st, k).(xp := st.xp, level := st.level, tasksCompleted := st.tasksCompleted) == st
    ensures |CompletionNotes(st, k)| <= k
  {
    if k > 0 {
      CompletionAwardsTotals(st, k - 1);
    }
  }
}
