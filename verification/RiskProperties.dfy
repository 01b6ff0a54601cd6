/** What every run of the risk model keeps. */
module RiskProperties {
  import opened RiskModel

  // ---------------------------------------------------------------- derived data

  /** Head counts are chain lengths and the status is the one the chains call for. */
  predicate WellDerived(a: App) {
    && a.tokenId != INVALID_TOKEN_ID && |a.chains| == ERROR_TYPES
    && (forall i :: 0 <= i < ERROR_TYPES ==> a.chains[i].count == |a.chains[i].stamps|)
    && a.status == Assess(a.chains)
  }

  predicate DistinctTokens(apps: seq<App>) {
    forall i, j :: 0 <= i < j < |apps| ==> apps[i].tokenId != apps[j].tokenId
  }

  predicate Inv(m: Model) {
    && (forall i :: 0 <= i < |m.apps| ==> WellDerived(m.apps[i]))
    && DistinctTokens(m.apps)
    && (!m.inited ==> m.apps == [] && m.riskCount == 0 && !m.listening)
    && m.riskCount <= MAX_RISK_APPS && m.riskCount <= |Risky(m.apps)|
  }

  function Stamps(a: App, i: nat): seq<int>
    requires i < |a.chains|
  {
    a.chains[i].stamps
  }

  function Held(a: App, i: nat): int
    requires i < |a.chains|
  {
    if Stamps(a, i) != [] then 1 else 0
  }

  lemma FiveChains(cs: seq<Chain>)
    requires |cs| == 5
    ensures TotalCount(cs) == cs[0].count + cs[1].count + cs[2].count + cs[3].count + cs[4].count
    ensures EventCount(cs) == 5 <==> forall i :: 0 <= i < 5 ==> cs[i].count != 0
    ensures EventCount(cs) == One(cs[0]) + One(cs[1]) + One(cs[2]) + One(cs[3]) + One(cs[4])
  {
    assert cs[..4][..3] == cs[..3] && cs[..3][..2] == cs[..2] && cs[..2][..1] == cs[..1] && cs[..1][..0] == [];
    assert TotalCount(cs[..1]) == cs[0].count;
    assert TotalCount(cs[..2]) == cs[0].count + cs[1].count;
    assert TotalCount(cs[..3]) == cs[0].count + cs[1].count + cs[2].count;
    assert TotalCount(cs[..4]) == cs[0].count + cs[1].count + cs[2].count + cs[3].count;
    assert EventCount(cs[..1]) == One(cs[0]);
    assert EventCount(cs[..2]) == One(cs[0]) + One(cs[1]);
    assert EventCount(cs[..3]) == One(cs[0]) + One(cs[1]) + One(cs[2]);
    assert EventCount(cs[..4]) == One(cs[0]) + One(cs[1]) + One(cs[2]) + One(cs[3]);
  }

  function One(c: Chain): int {
    if c.count != 0 then 1 else 0
  }

  /** What a well-derived status says about the timestamps actually held. */
  lemma StatusMeaning(a: App)
    requires WellDerived(a)
    ensures a.status.totalCount ==
      |Stamps(a, 0)| + |Stamps(a, 1)| + |Stamps(a, 2)| + |Stamps(a, 3)| + |Stamps(a, 4)|
    ensures a.status.eventCount == Held(a, 0) + Held(a, 1) + Held(a, 2) + Held(a, 3) + Held(a, 4)
    ensures a.status.policy == LogReport <==>
      || |Stamps(a, 0)| + |Stamps(a, 1)| + |Stamps(a, 2)| + |Stamps(a, 3)| + |Stamps(a, 4)| > 10
      || (forall i :: 0 <= i < 5 ==> Stamps(a, i) != [])
  {
    FiveChains(a.chains);
    forall i | 0 <= i < 5 ensures a.chains[i].count != 0 <==> Stamps(a, i) != [] {
    }
  }

  lemma ChangeKeepsDerived(a: App, r: Report, opt: nat)
    requires |a.chains| == ERROR_TYPES && r.errorType < ERROR_TYPES && a.tokenId != INVALID_TOKEN_ID
    requires forall i :: 0 <= i < ERROR_TYPES ==> a.chains[i].count == |a.chains[i].stamps|
    ensures WellDerived(ChangeApp(a, r, opt)) && ChangeApp(a, r, opt).tokenId == a.tokenId
  {
  }

  /** One event cannot make a new application risky, so creating it silently misses nothing. */
  lemma OneEventSafe(r: Report)
    requires r.errorType < ERROR_TYPES
    ensures ChangeApp(NewApp(r.tokenId), r, EVENT_REPORTED).status.policy == NoRisk
  {
    var cs := ChangeApp(NewApp(r.tokenId), r, EVENT_REPORTED).chains;
    assert forall i :: 0 <= i < 5 && i != r.errorType ==> cs[i] == Chain(0, []);
    FiveChains(cs);
    var other := if r.errorType == 0 then 1 else 0;
    assert cs[other].count == 0;
  }

  // ---------------------------------------------------------------- counting risky applications

  function Weight(a: App): nat {
    if a.status.policy != NoRisk then 1 else 0
  }

  lemma {:induction false} RiskyUpdate(apps: seq<App>, i: nat, a: App)
    requires i < |apps|
    ensures |Risky(apps[i := a])| == |Risky(apps)| - Weight(apps[i]) + Weight(a)
    decreases |apps|
  {
    if i == 0 {
      assert apps[0 := a][1..] == apps[1..];
    } else {
      RiskyUpdate(apps[1..], i - 1, a);
      assert apps[i := a][1..] == apps[1..][i - 1 := a];
    }
  }

  lemma RiskyPush(apps: seq<App>, a: App)
    ensures |Risky([a] + apps)| == |Risky(apps)| + Weight(a)
  {
    assert ([a] + apps)[1..] == apps;
  }

  /** Every step keeps the derived data, the distinct tokens and the bound on the count; the count stays
      exact as long as the new number of risky applications is within the cap. */
  lemma StepKeepsInv(m: Model, e: Event)
    requires Inv(m)
    ensures var m' := Step(m, e).model;
      Inv(m') && (m.riskCount == |Risky(m.apps)| <= MAX_RISK_APPS && |Risky(m'.apps)| <= MAX_RISK_APPS ==>
                    m'.riskCount == |Risky(m'.apps)|)
  {
    hide Risky, Assess, ChangeApp, FindApp;
    RiskyNone();
    if e.Data? && Step(m, e).model != m {
      match FindApp(m.apps, e.r.tokenId)
      case Some(i) =>
        RiskyUpdate(m.apps, i, ChangeApp(m.apps[i], e.r, e.opt));
        ChangeKeepsDerived(m.apps[i], e.r, e.opt);
      case None =>
        RiskyPush(m.apps, ChangeApp(NewApp(e.r.tokenId), e.r, e.opt));
        ChangeKeepsDerived(NewApp(e.r.tokenId), e.r, e.opt);
    }
  }

  lemma RiskyNone()
    ensures Risky([]) == []
  {
  }

  /** In every run: counts, sums and policies are the derived ones, tokens are distinct, and the global
      count never exceeds the number of risky applications nor the cap. */
  lemma {:induction false} RunKeepsInv(m: Model, evs: seq<Event>)
    requires Inv(m)
    ensures Inv(After(m, evs))
    decreases |evs|
  {
    if evs != [] {
      RunKeepsInv(m, evs[..|evs| - 1]);
      StepKeepsInv(After(m, evs[..|evs| - 1]), evs[|evs| - 1]);
    }
  }

  ghost predicate CountExactUpTo(m: Model, evs: seq<Event>)
    requires WellSized(m)
  {
    forall k :: 0 <= k <= |evs| ==> var s := After(m, evs[..k]); s.riskCount == |Risky(s.apps)|
  }

  ghost predicate NeverOverCap(m: Model, evs: seq<Event>)
    requires WellSized(m)
  {
    forall k :: 0 <= k <= |evs| ==> |Risky(After(m, evs[..k]).apps)| <= MAX_RISK_APPS
  }

  lemma {:induction false} ExactWhileUnderCap(m: Model, evs: seq<Event>, k: nat)
    requires Inv(m) && m.riskCount == |Risky(m.apps)| && NeverOverCap(m, evs) && k <= |evs|
    ensures var s := After(m, evs[..k]); s.riskCount == |Risky(s.apps)|
    decreases k
  {
    if k > 0 {
      ExactWhileUnderCap(m, evs, k - 1);
      assert evs[..k][..k - 1] == evs[..k - 1];
      RunKeepsInv(m, evs[..k - 1]);
      StepKeepsInv(After(m, evs[..k - 1]), evs[k - 1]);
    }
  }

  /** The count is exact throughout a run exactly when the number of risky applications never exceeds the
      cap during it. */
  lemma CountExactIffUnderCap(m: Model, evs: seq<Event>)
    requires Inv(m) && m.riskCount == |Risky(m.apps)|
    ensures CountExactUpTo(m, evs) <==> NeverOverCap(m, evs)
  {
    if NeverOverCap(m, evs) {
      forall k | 0 <= k <= |evs| ensures var s := After(m, evs[..k]); s.riskCount == |Risky(s.apps)| {
        ExactWhileUnderCap(m, evs, k);
      }
    }
    if CountExactUpTo(m, evs) {
      forall k | 0 <= k <= |evs| ensures |Risky(After(m, evs[..k]).apps)| <= MAX_RISK_APPS {
        RunKeepsInv(m, evs[..k]);
      }
    }
  }

  /** The application is risky, and this is what the query says about it. */
  predicate IsRisky(a: App, n: Note) {
    a.status.policy != NoRisk && n == Note(a.tokenId, a.status.policy)
  }

  /** What the query lists: the risky applications and no other, each token once. */
  lemma {:induction false} RiskyMeaning(apps: seq<App>)
    requires DistinctTokens(apps)
    ensures forall n :: n in Risky(apps) <==>
      exists i :: 0 <= i < |apps| && IsRisky(apps[i], n)
    ensures forall i, j :: 0 <= i < j < |Risky(apps)| ==> Risky(apps)[i].tokenId != Risky(apps)[j].tokenId
    decreases |apps|
  {
    if apps != [] {
      var rest := apps[1..];
      RiskyMeaning(rest);
      assert forall i :: 0 <= i < |rest| ==> rest[i] == apps[i + 1];
      forall n | n in Risky(rest) ensures n.tokenId != apps[0].tokenId {
        var i :| 0 <= i < |rest| && IsRisky(rest[i], n);
        assert rest[i] == apps[i + 1];
      }
      forall n | n in Risky(apps)
        ensures exists i :: 0 <= i < |apps| && IsRisky(apps[i], n)
      {
        if n in Risky(rest) {
          var i :| 0 <= i < |rest| && IsRisky(rest[i], n);
          assert apps[i + 1] == rest[i];
        }
      }
      forall i | 0 <= i < |apps| && apps[i].status.policy != NoRisk
        ensures Note(apps[i].tokenId, apps[i].status.policy) in Risky(apps)
      {
        if i > 0 {
          assert rest[i - 1] == apps[i];
        }
      }
    }
  }

  // ---------------------------------------------------------------- the order of the listing

  /** The listing tells the truth about this application, and that it is to be reported. */
  predicate Reported(a: App, n: Note) {
    a.tokenId == n.tokenId && a.status.policy == n.policy == LogReport
  }

  /** Every listed application is in the list and risky. */
  predicate AllRisky(apps: seq<App>, notes: seq<Note>) {
    forall a :: 0 <= a < |notes| ==> Tells(apps, notes[a])
  }

  predicate Tells(apps: seq<App>, n: Note) {
    exists i :: 0 <= i < |apps| && Reported(apps[i], n)
  }

  /** Of two listed applications the one that is listed first stands first in the list. */
  predicate InListOrder(apps: seq<App>, notes: seq<Note>) {
    forall a, b, i, j ::
      (0 <= a < b < |notes| && 0 <= i < |apps| && 0 <= j < |apps|
       && apps[i].tokenId == notes[a].tokenId && apps[j].tokenId == notes[b].tokenId) ==> i < j
  }

  /** Every risky application that stands before a listed one is listed, and before it. */
  predicate WithoutGap(apps: seq<App>, notes: seq<Note>) {
    forall b, i, j ::
      (0 <= b < |notes| && 0 <= i < j < |apps| && apps[j].tokenId == notes[b].tokenId
       && apps[i].status.policy == LogReport) ==>
      exists a :: 0 <= a < b && notes[a] == Note(apps[i].tokenId, LogReport)
  }

  /** The positions of the risky applications. */
  function Positions(apps: seq<App>): seq<nat> {
    if apps == [] then []
    else (if apps[0].status.policy != NoRisk then [0] else []) + Shift(Positions(apps[1..]))
  }

  function Shift(at: seq<nat>): (r: seq<nat>)
    ensures |r| == |at| && forall k :: 0 <= k < |at| ==> r[k] == at[k] + 1
  {
    seq(|at|, k requires 0 <= k < |at| => at[k] + 1)
  }

  predicate Increasing(at: seq<nat>) {
    forall a, b :: 0 <= a < b < |at| ==> at[a] < at[b]
  }

  predicate Notes(apps: seq<App>, notes: seq<Note>, at: seq<nat>) {
    |at| == |notes| && forall a :: 0 <= a < |at| ==> at[a] < |apps| && IsRisky(apps[at[a]], notes[a])
  }

  lemma {:induction false} PositionsListed(apps: seq<App>)
    ensures Notes(apps, Risky(apps), Positions(apps)) && Increasing(Positions(apps))
    decreases |apps|
  {
    if apps != [] {
      var rest := apps[1..];
      PositionsListed(rest);
      ShiftListed(apps, Risky(rest), Positions(rest));
      if apps[0].status.policy != NoRisk {
        PrependListed(apps, Note(apps[0].tokenId, apps[0].status.policy), Risky(rest), Shift(Positions(rest)));
      } else {
        assert Risky(apps) == Risky(rest) && Positions(apps) == Shift(Positions(rest));
      }
    }
  }

  /** Positions in the rest of the list, counted in the whole list. */
  lemma {:induction false} ShiftListed(apps: seq<App>, notes: seq<Note>, at: seq<nat>)
    requires apps != [] && Notes(apps[1..], notes, at) && Increasing(at)
    ensures Notes(apps, notes, Shift(at)) && Increasing(Shift(at))
  {
    hide IsRisky;
    var up := Shift(at);
    forall k | 0 <= k < |at| ensures up[k] < |apps| && IsRisky(apps[up[k]], notes[k]) {
      assert apps[1..][at[k]] == apps[up[k]];
    }
  }

  /** A risky first application in front of them. */
  lemma {:induction false} PrependListed(apps: seq<App>, n: Note, notes: seq<Note>, at: seq<nat>)
    requires apps != [] && IsRisky(apps[0], n) && Notes(apps, notes, at) && Increasing(at)
    requires forall k :: 0 <= k < |at| ==> at[k] > 0
    ensures Notes(apps, [n] + notes, [0] + at) && Increasing([0] + at)
  {
    hide IsRisky;
    var all := [0] + at;
    forall k | 0 <= k < |all| ensures all[k] < |apps| && IsRisky(apps[all[k]], ([n] + notes)[k]) {
      if k > 0 {
        assert all[k] == at[k - 1] && ([n] + notes)[k] == notes[k - 1];
      }
    }
  }

  lemma {:induction false} PositionsComplete(apps: seq<App>, i: nat)
    requires i < |apps| && apps[i].status.policy != NoRisk
    ensures i in Positions(apps)
    decreases |apps|
  {
    if i > 0 {
      var at := Positions(apps[1..]);
      PositionsComplete(apps[1..], i - 1);
      var k :| 0 <= k < |at| && at[k] == i - 1;
      assert Shift(at)[k] == i;
    }
  }

  lemma PositionOf(apps: seq<App>, notes: seq<Note>, at: seq<nat>, a: nat, i: nat)
    requires DistinctTokens(apps) && Notes(apps, notes, at) && a < |notes| && i < |apps|
    ensures apps[i].tokenId == notes[a].tokenId <==> i == at[a]
  {
    assert IsRisky(apps[at[a]], notes[a]);
  }

  lemma OrderListed(apps: seq<App>, notes: seq<Note>, at: seq<nat>)
    requires DistinctTokens(apps) && Notes(apps, notes, at) && Increasing(at)
    ensures InListOrder(apps, notes)
  {
    hide DistinctTokens, Notes;
    forall a: nat, b: nat, i: nat, j: nat |
      (a < b < |notes| && i < |apps| && j < |apps|
       && apps[i].tokenId == notes[a].tokenId && apps[j].tokenId == notes[b].tokenId)
      ensures i < j
    {
      PositionOf(apps, notes, at, a, i);
      PositionOf(apps, notes, at, b, j);
      SameLength(apps, notes, at);
    }
  }

  lemma SameLength(apps: seq<App>, notes: seq<Note>, at: seq<nat>)
    requires Notes(apps, notes, at)
    ensures |at| == |notes|
  {
  }

  lemma RiskyListed(apps: seq<App>, notes: seq<Note>, at: seq<nat>)
    requires Notes(apps, notes, at)
    ensures AllRisky(apps, notes)
  {
    forall a | 0 <= a < |notes| ensures Tells(apps, notes[a]) {
      assert IsRisky(apps[at[a]], notes[a]);
      assert Reported(apps[at[a]], notes[a]);
    }
  }

  /** One application before a listed one. */
  lemma EarlierListed(apps: seq<App>, limit: nat, b: nat, i: nat, j: nat) returns (a: nat)
    requires DistinctTokens(apps) && b < limit <= |Risky(apps)| && i < j < |apps|
    requires apps[j].tokenId == Risky(apps)[b].tokenId && apps[i].status.policy == LogReport
    ensures a < b && Risky(apps)[a] == Note(apps[i].tokenId, LogReport)
  {
    hide Risky, Positions, DistinctTokens;
    var at := Positions(apps);
    PositionsListed(apps);
    PositionsComplete(apps, i);
    a :| 0 <= a < |at| && at[a] == i;
    PositionOf(apps, Risky(apps), at, b, j);
    assert at[a] < at[b];
    assert IsRisky(apps[at[a]], Risky(apps)[a]);
  }

  /** The first entries of the listing are the first risky applications in list order. */
  lemma ListingOrder(apps: seq<App>, limit: nat)
    requires DistinctTokens(apps) && limit <= |Risky(apps)|
    ensures var notes := Risky(apps)[..limit];
      AllRisky(apps, notes) && InListOrder(apps, notes) && WithoutGap(apps, notes)
  {
    hide Risky, Positions, DistinctTokens, AllRisky, InListOrder;
    PositionsListed(apps);
    var notes, at := Risky(apps)[..limit], Positions(apps)[..limit];
    assert Notes(apps, notes, at);
    RiskyListed(apps, notes, at);
    OrderListed(apps, notes, at);
    forall b: nat, i: nat, j: nat |
      (b < |notes| && i < j < |apps| && apps[j].tokenId == notes[b].tokenId && apps[i].status.policy == LogReport)
      ensures exists a :: 0 <= a < b && notes[a] == Note(apps[i].tokenId, LogReport)
    {
      var a := EarlierListed(apps, limit, b, i, j);
      assert notes[a] == Risky(apps)[a];
    }
  }
}
