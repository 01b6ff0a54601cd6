/** What the listener hears, and which timestamps survive, over whole runs of the risk model. */
module RiskHistory {
  import opened Options
  import opened RiskModel
  import opened RiskProperties

  // ---------------------------------------------------------------- notifications

  /** The policies announced for one token, oldest first. */
  function NotesOf(sent: seq<Note>, t: nat): seq<Policy> {
    if sent == [] then []
    else NotesOf(sent[..|sent| - 1], t)
         + if sent[|sent| - 1].tokenId == t then [sent[|sent| - 1].policy] else []
  }

  predicate Alternates(ps: seq<Policy>) {
    forall k :: 0 <= k < |ps| ==> ps[k] == if k % 2 == 0 then LogReport else NoRisk
  }

  function Latest(ps: seq<Policy>): Policy {
    if ps == [] then NoRisk else ps[|ps| - 1]
  }

  function PolicyOf(apps: seq<App>, t: nat): Policy {
    match FindApp(apps, t)
    case Some(i) => apps[i].status.policy
    case None => NoRisk
  }

  predicate SyncedOn(m: Model, t: nat) {
    var ps := NotesOf(m.sent, t);
    Alternates(ps) && Latest(ps) == PolicyOf(m.apps, t)
  }

  /** For every token the announcements alternate, starting with LogReport, and the last one is current. */
  ghost predicate Synced(m: Model) {
    forall t: nat :: SyncedOn(m, t)
  }

  lemma AlternatesExtend(ps: seq<Policy>, p: Policy)
    requires Alternates(ps) && p != Latest(ps)
    ensures Alternates(ps + [p])
  {
  }

  lemma FindStable(apps: seq<App>, i: nat, a: App, t: nat)
    requires i < |apps| && a.tokenId == apps[i].tokenId
    ensures FindApp(apps[i := a], t) == FindApp(apps, t)
  {
    var r, r' := FindApp(apps, t), FindApp(apps[i := a], t);
    assert forall k :: 0 <= k < |apps| ==> apps[i := a][k].tokenId == apps[k].tokenId;
  }

  lemma FindAfterUpdate(apps: seq<App>, i: nat, a: App, t: nat)
    requires i < |apps| && a.tokenId == apps[i].tokenId && DistinctTokens(apps)
    ensures PolicyOf(apps[i := a], t) == if t == a.tokenId then a.status.policy else PolicyOf(apps, t)
  {
    FindStable(apps, i, a, t);
    if t == a.tokenId {
      assert FindApp(apps, t) == Some(i);
    }
  }

  lemma FindAfterPush(apps: seq<App>, a: App, t: nat)
    ensures PolicyOf([a] + apps, t) == if t == a.tokenId then a.status.policy else PolicyOf(apps, t)
  {
    assert ([a] + apps)[1..] == apps;
  }

  /** A change of policy that the listener is not told about: the count of risky applications is at its cap. */
  predicate Missed(m: Model, r: Report, opt: nat)
    requires WellSized(m)
  {
    && r.tokenId != INVALID_TOKEN_ID && r.errorType < ERROR_TYPES && opt < DATA_CHANGE_TYPES
    && FindApp(m.apps, r.tokenId).Some?
    && var a := m.apps[FindApp(m.apps, r.tokenId).value];
       var p := ChangeApp(a, r, opt).status.policy;
       p != a.status.policy && Bump(m.riskCount, a.status.policy, p) >= MAX_RISK_APPS
  }

  lemma UpdateSync(m: Model, i: nat, r: Report, opt: nat, t: nat)
    requires Inv(m) && m.listening && Synced(m) && r.errorType < ERROR_TYPES
    requires i < |m.apps| && m.apps[i].tokenId == r.tokenId
    ensures var a := ChangeApp(m.apps[i], r, opt);
      SyncedOn(UpdateApp(m, i, r, opt).model, t) <==>
      !(t == r.tokenId && a.status.policy != m.apps[i].status.policy
        && Bump(m.riskCount, m.apps[i].status.policy, a.status.policy) >= MAX_RISK_APPS)
  {
    var a := ChangeApp(m.apps[i], r, opt);
    FindAfterUpdate(m.apps, i, a, t);
    assert SyncedOn(m, t);
    assert PolicyOf(m.apps, r.tokenId) == m.apps[i].status.policy by {
      assert FindApp(m.apps, r.tokenId) == Some(i);
    }
    var sent' := UpdateApp(m, i, r, opt).model.sent;
    if sent' != m.sent {
      assert sent'[..|sent'| - 1] == m.sent;
      if t == r.tokenId {
        AlternatesExtend(NotesOf(m.sent, t), a.status.policy);
      } else {
        assert NotesOf(sent', t) == NotesOf(m.sent, t);
      }
    }
  }

  /** While someone listens, one event keeps every token's announcements in step exactly unless it changes
      a policy while the risky count is at its cap. */
  lemma DataKeepsSync(m: Model, r: Report, opt: nat)
    requires Inv(m) && m.inited && m.listening && Synced(m)
    ensures Synced(Process(m, r, opt).model) <==> !Missed(m, r, opt)
  {
    hide SyncedOn, UpdateApp, ChangeApp;
    if Process(m, r, opt).model != m || Missed(m, r, opt) {
      match FindApp(m.apps, r.tokenId)
      case Some(i) =>
        forall t: nat {
          UpdateSync(m, i, r, opt, t);
        }
        assert Missed(m, r, opt) ==> !SyncedOn(UpdateApp(m, i, r, opt).model, r.tokenId);
      case None =>
        forall t: nat ensures SyncedOn(Process(m, r, opt).model, t) {
          AddSync(m, r, t);
        }
    }
  }

  lemma AddSync(m: Model, r: Report, t: nat)
    requires Synced(m) && r.errorType < ERROR_TYPES && FindApp(m.apps, r.tokenId).None?
    ensures SyncedOn(AddApp(m, r, EVENT_REPORTED).model, t)
  {
    assert SyncedOn(m, t);
    OneEventSafe(r);
    FindAfterPush(m.apps, ChangeApp(NewApp(r.tokenId), r, EVENT_REPORTED), t);
  }

  /** The model right after start-up and subscription. */
  const SUBSCRIBED := Model(true, [], 0, true, [])

  predicate DataOnly(evs: seq<Event>) {
    forall i :: 0 <= i < |evs| ==> evs[i].Data?
  }

  ghost predicate BelowCap(evs: seq<Event>) {
    forall k :: 0 <= k <= |evs| ==> After(SUBSCRIBED, evs[..k]).riskCount < MAX_RISK_APPS
  }

  lemma SubscribedReached()
    ensures After(BLANK, [StartUp, Subscribe]) == SUBSCRIBED
    ensures Inv(SUBSCRIBED) && Synced(SUBSCRIBED)
  {
    assert [StartUp, Subscribe][..1] == [StartUp] && [StartUp][..0] == [];
    assert After(BLANK, [StartUp]) == BLANK.(inited := true);
    forall t: nat ensures SyncedOn(SUBSCRIBED, t) {
    }
  }

  lemma NotMissed(m: Model, r: Report, opt: nat)
    requires Inv(m) && m.inited && m.listening && Process(m, r, opt).model.riskCount < MAX_RISK_APPS
    ensures !Missed(m, r, opt) && Process(m, r, opt).model.inited && Process(m, r, opt).model.listening
  {
    hide ChangeApp, FindApp, Risky;
  }

  /** With a listener subscribed right after start-up and the risky count below its cap throughout, every
      token's announcements alternate LogReport, NoRisk, ..., and the last one is the current policy. */
  lemma {:induction false} NotificationsAlternate(evs: seq<Event>)
    requires DataOnly(evs) && BelowCap(evs)
    ensures var m := After(SUBSCRIBED, evs); Inv(m) && m.inited && m.listening && Synced(m)
    decreases |evs|
  {
    hide Process, Synced, Inv;
    SubscribedReached();
    if evs != [] {
      var pre := evs[..|evs| - 1];
      assert forall k :: 0 <= k <= |pre| ==> pre[..k] == evs[..k];
      NotificationsAlternate(pre);
      var m, e := After(SUBSCRIBED, pre), evs[|evs| - 1];
      DataKeepsSync(m, e.r, e.opt);
      StepKeepsInv(m, e);
      assert evs[..|evs|] == evs;
      NotMissed(m, e.r, e.opt);
    }
  }

  ghost predicate SyncedThroughout(evs: seq<Event>) {
    forall k :: 0 <= k <= |evs| ==> Synced(After(SUBSCRIBED, evs[..k]))
  }

  predicate NoneMissed(evs: seq<Event>)
    requires DataOnly(evs)
  {
    forall i :: 0 <= i < |evs| ==> !Missed(After(SUBSCRIBED, evs[..i]), evs[i].r, evs[i].opt)
  }

  lemma {:induction false} StaysListening(evs: seq<Event>, k: nat)
    requires DataOnly(evs) && k <= |evs|
    ensures var m := After(SUBSCRIBED, evs[..k]); Inv(m) && m.inited && m.listening
    decreases k
  {
    hide Process, Inv;
    SubscribedReached();
    if k > 0 {
      StaysListening(evs, k - 1);
      assert evs[..k][..k - 1] == evs[..k - 1];
      var m, e := After(SUBSCRIBED, evs[..k - 1]), evs[k - 1];
      StepKeepsInv(m, e);
      ProcessKeepsListening(m, e.r, e.opt);
    }
  }

  lemma ProcessKeepsListening(m: Model, r: Report, opt: nat)
    requires WellSized(m)
    ensures var m' := Process(m, r, opt).model; m'.inited == m.inited && m'.listening == m.listening
  {
  }

  lemma {:induction false} SyncedUpTo(evs: seq<Event>, k: nat)
    requires DataOnly(evs) && NoneMissed(evs) && k <= |evs|
    ensures Synced(After(SUBSCRIBED, evs[..k]))
    decreases k
  {
    hide Process, Inv, Synced, Missed;
    SubscribedReached();
    if k > 0 {
      SyncedUpTo(evs, k - 1);
      StaysListening(evs, k - 1);
      assert evs[..k][..k - 1] == evs[..k - 1];
      DataKeepsSync(After(SUBSCRIBED, evs[..k - 1]), evs[k - 1].r, evs[k - 1].opt);
    }
  }

  /** Over a whole run with a listener from start-up on: every token's announcements are in step at every point exactly
      when no event changes a policy at the cap. */
  lemma SyncedIffNoneMissed(evs: seq<Event>)
    requires DataOnly(evs)
    ensures SyncedThroughout(evs) <==> NoneMissed(evs)
  {
    hide Process, Inv, Synced, Missed;
    if NoneMissed(evs) {
      forall k | 0 <= k <= |evs| ensures Synced(After(SUBSCRIBED, evs[..k])) {
        SyncedUpTo(evs, k);
      }
    }
    if SyncedThroughout(evs) {
      forall i | 0 <= i < |evs| ensures !Missed(After(SUBSCRIBED, evs[..i]), evs[i].r, evs[i].opt) {
        StaysListening(evs, i);
        assert evs[..i + 1][..i] == evs[..i];
        assert Synced(After(SUBSCRIBED, evs[..i])) && Synced(After(SUBSCRIBED, evs[..i + 1]));
        DataKeepsSync(After(SUBSCRIBED, evs[..i]), evs[i].r, evs[i].opt);
      }
    }
  }

  // ---------------------------------------------------------------- which timestamps survive

  predicate NewestFirst(stamps: seq<int>) {
    forall i, j :: 0 <= i < j < |stamps| ==> stamps[i] >= stamps[j]
  }

  /** The stamps newer than `t`, in order, wherever they stand. */
  function KeepNewer(stamps: seq<int>, t: int): seq<int> {
    if stamps == [] then []
    else (if stamps[0] > t then [stamps[0]] else []) + KeepNewer(stamps[1..], t)
  }

  lemma {:induction false} NoneNewer(stamps: seq<int>, t: int)
    requires forall k :: 0 <= k < |stamps| ==> stamps[k] <= t
    ensures KeepNewer(stamps, t) == []
    decreases |stamps|
  {
    if stamps != [] {
      NoneNewer(stamps[1..], t);
    }
  }

  lemma {:induction false} CutSorted(stamps: seq<int>, t: int)
    requires NewestFirst(stamps)
    ensures Cut(stamps, t) == KeepNewer(stamps, t)
    decreases |stamps|
  {
    if stamps != [] {
      if stamps[0] <= t {
        NoneNewer(stamps, t);
      } else {
        CutSorted(stamps[1..], t);
      }
    }
  }

  lemma {:induction false} KeptMember(stamps: seq<int>, t: int, k: nat)
    requires k < |stamps| && stamps[k] > t
    ensures stamps[k] in KeepNewer(stamps, t)
    decreases |stamps|
  {
    if k > 0 {
      KeptMember(stamps[1..], t, k - 1);
    }
  }

  /** Cutting at the first stamp that is not newer keeps exactly the newer ones, for every cut-off time,
      exactly when the chain is ordered newest first. */
  lemma CutIsFilter(stamps: seq<int>)
    ensures (forall t :: Cut(stamps, t) == KeepNewer(stamps, t)) <==> NewestFirst(stamps)
  {
    if NewestFirst(stamps) {
      forall t ensures Cut(stamps, t) == KeepNewer(stamps, t) {
        CutSorted(stamps, t);
      }
    } else {
      var i, j :| 0 <= i < j < |stamps| && stamps[i] < stamps[j];
      var t := stamps[i];
      KeptMember(stamps, t, j);
      if Cut(stamps, t) == KeepNewer(stamps, t) {
        CutMisses(stamps, i, j);
      }
    }
  }

  lemma {:induction false} CutMisses(stamps: seq<int>, i: nat, j: nat)
    requires i < j < |stamps| && stamps[i] < stamps[j]
    ensures Cut(stamps, stamps[i]) != KeepNewer(stamps, stamps[i])
    decreases |stamps|
  {
    var t := stamps[i];
    if stamps[0] <= t {
      KeptMember(stamps, t, j);
    } else {
      CutMisses(stamps[1..], i - 1, j - 1);
    }
  }

  predicate Running(evs: seq<Event>) {
    evs != [] && match evs[|evs| - 1]
      case StartUp => true
      case ShutDown => false
      case _ => Running(evs[..|evs| - 1])
  }

  predicate Concerns(e: Event, t: nat, et: nat, opt: nat) {
    e.Data? && e.opt == opt && e.r.tokenId == t && e.r.errorType == et
  }

  /** The reference answer: the reported times, newest report first, that no later expiry covers. */
  function Survivors(evs: seq<Event>, t: nat, et: nat): seq<int> {
    if evs == [] || !Running(evs) then []
    else
      var before, e := Survivors(evs[..|evs| - 1], t, et), evs[|evs| - 1];
      if Concerns(e, t, et, EVENT_REPORTED) then [e.r.time] + before
      else if Concerns(e, t, et, OUT_OF_STORAGE_LIFE) then KeepNewer(before, e.r.time)
      else before
  }

  /** Two reports about one application and error type. */
  predicate SameSeries(e: Event, e': Event) {
    e.Data? && e.opt == EVENT_REPORTED && Concerns(e', e.r.tokenId, e.r.errorType, EVENT_REPORTED)
  }

  /** The reports of each application and error type arrive in nondecreasing time. */
  predicate InOrder(evs: seq<Event>) {
    forall i, j :: 0 <= i < j < |evs| && SameSeries(evs[i], evs[j]) ==> evs[i].r.time <= evs[j].r.time
  }

  lemma PushNewest(x: int, stamps: seq<int>)
    requires NewestFirst(stamps) && forall y :: y in stamps ==> y <= x
    ensures NewestFirst([x] + stamps)
  {
    forall j | 0 <= j < |stamps| ensures stamps[j] <= x {
      assert stamps[j] in stamps;
    }
  }

  lemma {:induction false} KeepNewerMembers(stamps: seq<int>, t: int)
    ensures forall x :: x in KeepNewer(stamps, t) ==> x in stamps
    ensures NewestFirst(stamps) ==> NewestFirst(KeepNewer(stamps, t))
    decreases |stamps|
  {
    if stamps != [] {
      KeepNewerMembers(stamps[1..], t);
      if NewestFirst(stamps) {
        assert forall x :: x in stamps[1..] ==> x <= stamps[0];
        PushNewest(stamps[0], KeepNewer(stamps[1..], t));
      }
    }
  }

  lemma {:induction false} SurvivorsReported(evs: seq<Event>, t: nat, et: nat, x: int)
    requires x in Survivors(evs, t, et)
    ensures exists i :: 0 <= i < |evs| && Concerns(evs[i], t, et, EVENT_REPORTED) && evs[i].r.time == x
    decreases |evs|
  {
    var pre, e := evs[..|evs| - 1], evs[|evs| - 1];
    if Concerns(e, t, et, EVENT_REPORTED) && x == e.r.time {
    } else {
      KeepNewerMembers(Survivors(pre, t, et), if e.Data? then e.r.time else 0);
      SurvivorsReported(pre, t, et, x);
      var i :| 0 <= i < |pre| && Concerns(pre[i], t, et, EVENT_REPORTED) && pre[i].r.time == x;
      assert pre[i] == evs[i];
    }
  }

  lemma {:induction false} SurvivorsSorted(evs: seq<Event>, t: nat, et: nat)
    requires InOrder(evs)
    ensures NewestFirst(Survivors(evs, t, et))
    decreases |evs|
  {
    if evs != [] && Running(evs) {
      var pre, e := evs[..|evs| - 1], evs[|evs| - 1];
      SurvivorsSorted(pre, t, et);
      var before := Survivors(pre, t, et);
      if Concerns(e, t, et, EVENT_REPORTED) {
        forall x | x in before ensures x <= e.r.time {
          SurvivorsReported(pre, t, et, x);
          var i :| 0 <= i < |pre| && Concerns(pre[i], t, et, EVENT_REPORTED) && pre[i].r.time == x;
          assert pre[i] == evs[i] && SameSeries(evs[i], e);
        }
        PushNewest(e.r.time, before);
      } else if e.Data? {
        KeepNewerMembers(before, e.r.time);
      }
    }
  }

  function ChangeStamps(before: seq<int>, time: int, opt: nat): seq<int> {
    if opt == EVENT_REPORTED then [time] + before
    else if opt == OUT_OF_STORAGE_LIFE then Cut(before, time)
    else before
  }

  lemma ChangedStamps(a: App, r: Report, opt: nat, et: nat)
    requires |a.chains| == ERROR_TYPES && r.errorType < ERROR_TYPES && et < ERROR_TYPES
    ensures Stamps(ChangeApp(a, r, opt), et)
         == if r.errorType == et then ChangeStamps(Stamps(a, et), r.time, opt) else Stamps(a, et)
  {
    hide Assess, Cut;
  }

  function AppStamps(apps: seq<App>, t: nat, et: nat): seq<int>
    requires et < ERROR_TYPES && forall i :: 0 <= i < |apps| ==> |apps[i].chains| == ERROR_TYPES
  {
    match FindApp(apps, t)
    case Some(i) => Stamps(apps[i], et)
    case None => []
  }

  /** The timestamps the model holds for a token and error type. */
  function StampsOf(m: Model, t: nat, et: nat): seq<int>
    requires WellSized(m) && et < ERROR_TYPES
  {
    AppStamps(m.apps, t, et)
  }

  lemma StampsUpdate(apps: seq<App>, i: nat, r: Report, opt: nat, t: nat, et: nat)
    requires et < ERROR_TYPES && r.errorType < ERROR_TYPES && FindApp(apps, r.tokenId) == Some(i)
    requires forall i :: 0 <= i < |apps| ==> |apps[i].chains| == ERROR_TYPES
    ensures AppStamps(apps[i := ChangeApp(apps[i], r, opt)], t, et) ==
      if r.tokenId == t && r.errorType == et then ChangeStamps(AppStamps(apps, t, et), r.time, opt)
      else AppStamps(apps, t, et)
  {
    hide ChangeApp, Stamps, ChangeStamps;
    ChangedToken(apps[i], r, opt);
    ChangedStamps(apps[i], r, opt, et);
    FindStable(apps, i, ChangeApp(apps[i], r, opt), t);
  }

  lemma StampsAdd(apps: seq<App>, r: Report, t: nat, et: nat)
    requires et < ERROR_TYPES && r.errorType < ERROR_TYPES && FindApp(apps, r.tokenId).None?
    requires forall i :: 0 <= i < |apps| ==> |apps[i].chains| == ERROR_TYPES
    ensures AppStamps([ChangeApp(NewApp(r.tokenId), r, EVENT_REPORTED)] + apps, t, et) ==
      if r.tokenId == t && r.errorType == et then [r.time] else AppStamps(apps, t, et)
  {
    hide ChangeApp, Stamps;
    var a := ChangeApp(NewApp(r.tokenId), r, EVENT_REPORTED);
    ChangedToken(NewApp(r.tokenId), r, EVENT_REPORTED);
    ChangedStamps(NewApp(r.tokenId), r, EVENT_REPORTED, et);
    NewStamps(r.tokenId, et);
    assert ([a] + apps)[1..] == apps;
  }

  /** How one event changes the timestamps held for any token and error type. */
  lemma StampsStep(m: Model, r: Report, opt: nat, t: nat, et: nat)
    requires WellSized(m) && m.inited && et < ERROR_TYPES && t != INVALID_TOKEN_ID
    ensures StampsOf(Process(m, r, opt).model, t, et) ==
      if r.tokenId == t && r.errorType == et then ChangeStamps(StampsOf(m, t, et), r.time, opt)
      else StampsOf(m, t, et)
  {
    hide ChangeApp, Stamps, FindApp;
    if r.tokenId != INVALID_TOKEN_ID && r.errorType < ERROR_TYPES && opt < DATA_CHANGE_TYPES {
      match FindApp(m.apps, r.tokenId)
      case Some(i) => StampsUpdate(m.apps, i, r, opt, t, et);
      case None => if opt == EVENT_REPORTED { StampsAdd(m.apps, r, t, et); }
    }
  }

  lemma NewStamps(t: nat, et: nat)
    requires et < ERROR_TYPES
    ensures Stamps(NewApp(t), et) == []
  {
  }

  lemma ChangedToken(a: App, r: Report, opt: nat)
    requires r.errorType < |a.chains|
    ensures ChangeApp(a, r, opt).tokenId == a.tokenId && |ChangeApp(a, r, opt).chains| == |a.chains|
  {
  }

  lemma BlankInv()
    ensures Inv(BLANK)
  {
  }

  lemma PrefixInOrder(evs: seq<Event>)
    requires InOrder(evs) && evs != []
    ensures InOrder(evs[..|evs| - 1])
  {
  }

  /** An event that is not valid input changes nothing, and data events never start or stop the model. */
  lemma ProcessKeepsRunning(m: Model, r: Report, opt: nat)
    requires WellSized(m)
    ensures Process(m, r, opt).model.inited == m.inited
    ensures !m.inited ==> Process(m, r, opt).model == m
  {
  }

  /** If reports arrive in order, the model holds exactly the surviving timestamps, newest first, for every
      application and error type, after every run of start-ups, reports, expiries and shut-downs. */
  lemma {:induction false} ChainsAreSurvivors(evs: seq<Event>, t: nat, et: nat)
    requires InOrder(evs) && t != INVALID_TOKEN_ID && et < ERROR_TYPES
    ensures var m := After(BLANK, evs);
      StampsOf(m, t, et) == Survivors(evs, t, et) && (m.inited <==> Running(evs)) && NewestFirst(StampsOf(m, t, et))
    decreases |evs|
  {
    hide Process, Inv, NewestFirst, InOrder, KeepNewer;
    SurvivorsSorted(evs, t, et);
    BlankInv();
    if evs != [] {
      var pre, e := evs[..|evs| - 1], evs[|evs| - 1];
      PrefixInOrder(evs);
      ChainsAreSurvivors(pre, t, et);
      RunKeepsInv(BLANK, pre);
      var m := After(BLANK, pre);
      if e.Data? && m.inited {
        StampsStep(m, e.r, e.opt, t, et);
        CutSorted(StampsOf(m, t, et), e.r.time);
      }
      if e.Data? {
        ProcessKeepsRunning(m, e.r, e.opt);
      }
      InvStops(m);
    }
  }

  lemma InvStops(m: Model)
    requires Inv(m)
    ensures !m.inited ==> m.apps == []
  {
  }
}
