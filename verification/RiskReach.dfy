/** Runs that reach and pass the cap on risky applications: the failing side of the exact conditions is real. */
module RiskReach {
  import opened Options
  import opened RiskModel
  import opened RiskProperties
  import opened RiskHistory

  /** One report of the first error type for application `t`. */
  function Hit(t: nat): Event {
    Data(Report(t, 0, 0), EVENT_REPORTED)
  }

  /** Reports enough for applications 1 to `n`, eleven each, and `j` more for the next one. */
  function Crowd(n: nat, j: nat): (evs: seq<Event>)
    ensures DataOnly(evs)
    decreases n, j
  {
    if j > 0 then Crowd(n, j - 1) + [Hit(n + 1)]
    else if n > 0 then Crowd(n - 1, MAX_ERRORS + 1)
    else []
  }

  function Zeros(j: nat): seq<int> {
    seq(j, i => 0)
  }

  function Chains(j: nat): seq<Chain> {
    [Chain(j, Zeros(j)), Chain(0, []), Chain(0, []), Chain(0, []), Chain(0, [])]
  }

  /** Application `t` after `j` such reports. */
  function Struck(t: nat, j: nat): App {
    App(t, Status(if j > MAX_ERRORS then LogReport else NoRisk, if j > 0 then 1 else 0, j), Chains(j))
  }

  /** The list after `n` applications, newest first. */
  function Listed(n: nat): seq<App> {
    if n == 0 then [] else [Struck(n, MAX_ERRORS + 1)] + Listed(n - 1)
  }

  function Min(a: nat, b: nat): nat {
    if a <= b then a else b
  }

  lemma StruckStatus(j: nat)
    ensures Assess(Chains(j)) == Status(if j > MAX_ERRORS then LogReport else NoRisk, if j > 0 then 1 else 0, j)
  {
    FiveChains(Chains(j));
  }

  lemma StrikeAgain(t: nat, j: nat)
    ensures ChangeApp(Struck(t, j), Report(t, 0, 0), EVENT_REPORTED) == Struck(t, j + 1)
    ensures NewApp(t) == Struck(t, 0)
  {
    hide Assess;
    StruckStatus(j + 1);
    assert [0] + Zeros(j) == Zeros(j + 1);
    assert Chains(j)[0 := Chain(j + 1, [0] + Zeros(j))] == Chains(j + 1);
    assert Zeros(0) == [];
  }

  lemma {:induction false} ListedTokens(n: nat, i: nat)
    requires i < |Listed(n)|
    ensures |Listed(n)| == n && 1 <= Listed(n)[i].tokenId <= n
    decreases n
  {
    if n > 1 {
      ListedTokens(n - 1, if i > 0 then i - 1 else 0);
    }
  }

  lemma NotListed(n: nat)
    ensures FindApp(Listed(n), n + 1).None?
  {
    hide Listed;
    if FindApp(Listed(n), n + 1).Some? {
      ListedTokens(n, FindApp(Listed(n), n + 1).value);
    }
  }

  lemma {:induction false} ListedRisky(n: nat)
    ensures |Risky(Listed(n))| == n
    decreases n
  {
    if n > 0 {
      ListedRisky(n - 1);
      RiskyPush(Listed(n - 1), Struck(n, MAX_ERRORS + 1));
    }
  }

  /** What the list and the count are after a crowd. */
  predicate Counted(m: Model, n: nat, j: nat) {
    && m.inited && m.listening
    && m.apps == (if j == 0 then Listed(n) else [Struck(n + 1, j)] + Listed(n))
    && m.riskCount == Min(if j > MAX_ERRORS then n + 1 else n, MAX_RISK_APPS)
  }

  lemma HitNew(m: Model, n: nat)
    requires WellSized(m) && Counted(m, n, 0)
    ensures Counted(Step(m, Hit(n + 1)).model, n, 1)
  {
    hide FindApp, ChangeApp, Listed, NewApp, Struck;
    NotListed(n);
    StrikeAgain(n + 1, 0);
    NotRiskyYet(n + 1, 1);
  }

  lemma NotRiskyYet(t: nat, j: nat)
    ensures Struck(t, j).status.policy == (if j > MAX_ERRORS then LogReport else NoRisk)
    ensures Struck(t, j).tokenId == t && |Struck(t, j).chains| == ERROR_TYPES
  {
  }

  lemma HitAgain(m: Model, n: nat, j: nat)
    requires WellSized(m) && Counted(m, n, j) && 0 < j <= MAX_ERRORS
    ensures Counted(Step(m, Hit(n + 1)).model, n, j + 1)
    ensures Missed(m, Report(n + 1, 0, 0), EVENT_REPORTED) <==> j == MAX_ERRORS && n + 1 >= MAX_RISK_APPS
  {
    hide ChangeApp, Listed, Struck;
    StrikeAgain(n + 1, j);
    NotRiskyYet(n + 1, j);
    NotRiskyYet(n + 1, j + 1);
    assert FindApp(m.apps, n + 1) == Some(0);
    assert m.apps[0 := Struck(n + 1, j + 1)] == [Struck(n + 1, j + 1)] + Listed(n);
  }

  lemma RunStep(evs: seq<Event>, e: Event)
    ensures After(SUBSCRIBED, evs + [e]) == Step(After(SUBSCRIBED, evs), e).model
  {
    assert (evs + [e])[..|evs|] == evs;
  }

  lemma {:induction false} CrowdCounted(n: nat, j: nat)
    requires j <= MAX_ERRORS + 1
    ensures Counted(After(SUBSCRIBED, Crowd(n, j)), n, j)
    decreases n, j
  {
    hide Step, Counted, After;
    if j > 0 {
      CrowdCounted(n, j - 1);
      RunStep(Crowd(n, j - 1), Hit(n + 1));
      var m := After(SUBSCRIBED, Crowd(n, j - 1));
      if j == 1 {
        HitNew(m, n);
      } else {
        HitAgain(m, n, j - 1);
      }
    } else if n > 0 {
      CrowdCounted(n - 1, MAX_ERRORS + 1);
      NextCounted(After(SUBSCRIBED, Crowd(n - 1, MAX_ERRORS + 1)), n);
    } else {
      assert After(SUBSCRIBED, []) == SUBSCRIBED by { RunNone(); }
      assert Counted(SUBSCRIBED, 0, 0) by { StartCounted(); }
    }
  }

  lemma RunNone()
    ensures After(SUBSCRIBED, []) == SUBSCRIBED
  {
  }

  lemma StartCounted()
    ensures Counted(SUBSCRIBED, 0, 0)
  {
  }

  lemma NextCounted(m: Model, n: nat)
    requires n > 0 && Counted(m, n - 1, MAX_ERRORS + 1)
    ensures Counted(m, n, 0)
  {
  }

  /** A listener hears everything as long as the crowd is below the cap. */
  lemma {:induction false} CrowdSynced(n: nat, j: nat)
    requires j <= MAX_ERRORS + 1 && (n + 1 < MAX_RISK_APPS || (n + 1 == MAX_RISK_APPS && j <= MAX_ERRORS))
    ensures var m := After(SUBSCRIBED, Crowd(n, j)); Inv(m) && m.inited && m.listening && Synced(m)
    decreases n, j
  {
    hide Process, Synced, Inv, Counted, After, Missed;
    SubscribedReached();
    if j > 0 {
      CrowdSynced(n, j - 1);
      var m := After(SUBSCRIBED, Crowd(n, j - 1));
      CrowdCounted(n, j - 1);
      CrowdCounted(n, j);
      RunStep(Crowd(n, j - 1), Hit(n + 1));
      StepKeepsInv(m, Hit(n + 1));
      CountBelow(After(SUBSCRIBED, Crowd(n, j)), n, j);
      NotMissed(m, Report(n + 1, 0, 0), EVENT_REPORTED);
      DataKeepsSync(m, Report(n + 1, 0, 0), EVENT_REPORTED);
    } else if n > 0 {
      CrowdSynced(n - 1, MAX_ERRORS + 1);
    } else {
      RunNone();
      assert Inv(SUBSCRIBED) && Synced(SUBSCRIBED);
    }
  }

  lemma CountBelow(m: Model, n: nat, j: nat)
    requires Counted(m, n, j) && (n + 1 < MAX_RISK_APPS || (n + 1 == MAX_RISK_APPS && j <= MAX_ERRORS))
    ensures m.riskCount < MAX_RISK_APPS
  {
  }

  /** A run in which everything was announced, and a next report whose change of policy the listener never hears. */
  lemma MissedIsReached()
    ensures var m := After(SUBSCRIBED, Crowd(MAX_RISK_APPS - 1, MAX_ERRORS));
      var r := Report(MAX_RISK_APPS, 0, 0);
      && Inv(m) && m.inited && m.listening && Synced(m) && Missed(m, r, EVENT_REPORTED)
      && !Synced(Process(m, r, EVENT_REPORTED).model)
  {
    hide After, Crowd, Process, Synced, Inv, Counted, Missed;
    CrowdSynced(MAX_RISK_APPS - 1, MAX_ERRORS);
    CrowdCounted(MAX_RISK_APPS - 1, MAX_ERRORS);
    var m := After(SUBSCRIBED, Crowd(MAX_RISK_APPS - 1, MAX_ERRORS));
    HitAgain(m, MAX_RISK_APPS - 1, MAX_ERRORS);
    DataKeepsSync(m, Report(MAX_RISK_APPS, 0, 0), EVENT_REPORTED);
  }

  /** A run with exactly as many risky applications as the cap, and the same run with one more, in which the count
      falls behind. */
  lemma CountFallsBehind()
    ensures var m := After(SUBSCRIBED, Crowd(MAX_RISK_APPS, 0)); m.riskCount == MAX_RISK_APPS == |Risky(m.apps)|
    ensures var m := After(SUBSCRIBED, Crowd(MAX_RISK_APPS + 1, 0));
      m.riskCount == MAX_RISK_APPS < |Risky(m.apps)| == MAX_RISK_APPS + 1
    ensures !CountExactUpTo(SUBSCRIBED, Crowd(MAX_RISK_APPS + 1, 0))
  {
    hide After, Crowd, Risky;
    CrowdCounted(MAX_RISK_APPS, 0);
    CrowdCounted(MAX_RISK_APPS + 1, 0);
    ListedRisky(MAX_RISK_APPS);
    ListedRisky(MAX_RISK_APPS + 1);
    var evs := Crowd(MAX_RISK_APPS + 1, 0);
    assert evs[..|evs|] == evs;
  }
}
