/** A suite that runs every minute, for concrete histories. */
module MinuteSuites {
  import opened Types
  import opened CronScan
  import opened Names
  import opened SuiteController
  import opened SuitePass

  function MinuteSuite(policy: Policy, runNow: string, last: Option<int>, version: nat, active: seq<string>, valid: Option<bool>): Suite {
    Suite(SuiteSpec("s", 0, Template([], [], None), Cron(EveryMinute), false, policy, None, None, runNow),
          SuiteStatus(last, "", active, valid), version)
  }

  lemma MinutesAreRegular()
    ensures Regular(EveryMinute)
  {
    hide Satisfiable, EveryMinute;
    MinutesAreSatisfiable();
    forall t
      ensures EveryMinute(t) % SECOND == 0
    {
      MinuteIsWhole(t);
    }
  }

  lemma MinutesAdvance()
    ensures Advancing(EveryMinute)
  {
    hide EveryMinute;
    MinutesAreRegular();
  }

  lemma MinuteIsWhole(t: int)
    ensures EveryMinute(t) % SECOND == 0
  {
    var n := (t / MINUTE + 1) * 60;
    assert EveryMinute(t) == n * SECOND;
  }

  /** One minute after the last handled tick exactly one tick is due, and it fires. */
  lemma MinuteFires(s: Suite, k: nat)
    requires s.spec.schedule == Cron(EveryMinute) && !s.spec.suspend && s.spec.startingDeadline == None
    requires Earliest(s) == k * MINUTE
    ensures Decide(s, [], (k + 1) * MINUTE) == Fire((k + 1) * MINUTE)
  {
    hide Missed;
    var next, from, now := EveryMinute, k * MINUTE, (k + 1) * MINUTE;
    TickZero(next, from);
    TickStep(next, from, 1);
    assert Tick(next, from, 1) == now && Tick(next, from, 2) == now + MINUTE;
    MissedUnique(next, from, now, SCAN_LIMIT, 1);
  }

  /** The names "s-60" and "s-120" are short and differ. */
  lemma NamesDiffer(hash: string -> string)
    requires IsHash(hash)
    ensures TickName(hash, "s", MINUTE) != TickName(hash, "s", 2 * MINUTE)
  {
    assert DecimalNat(60) == "60";
    assert DecimalNat(12) == "12";
    assert DecimalNat(120) == "120";
    assert FullTickName("s", MINUTE) == "s-60" && FullTickName("s", 2 * MINUTE) == "s-120";
  }

  lemma ManualIsNotMinute(hash: string -> string, trigger: string)
    requires IsHash(hash)
    ensures ManualName(hash, "s", trigger) != TickName(hash, "s", MINUTE)
  {
    assert DecimalNat(60) == "60";
    assert FullTickName("s", MINUTE) == "s-60";
    assert FullManualName(hash, "s", trigger)[2] == 'm';
  }
}
