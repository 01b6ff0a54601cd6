/** The code-signature risk model: per application five chains of error timestamps, the counts and the
    policy derived from them, a saturating count of risky applications, and a change listener. */
module RiskModel {
  import opened Options

  const ERROR_TYPES := 5
  const MAX_ERRORS := 10
  const MAX_RISK_APPS := 102400
  const INVALID_TOKEN_ID := 0

  const EVENT_REPORTED := 0
  const OUT_OF_STORAGE_LIFE := 1
  const DATA_CHANGE_TYPES := 2

  datatype Policy = NoRisk | LogReport

  /** A chain of timestamps, newest first, with the count kept in its head node. */
  datatype Chain = Chain(count: int, stamps: seq<int>)

  datatype Status = Status(policy: Policy, eventCount: int, totalCount: int)

  datatype App = App(tokenId: nat, status: Status, chains: seq<Chain>)

  datatype Report = Report(tokenId: nat, errorType: nat, time: int)

  datatype Note = Note(tokenId: nat, policy: Policy)

  datatype Code = Success | TokenIdInvalid | EventTypeInvalid | OperTypeInvalid | InitRepeat | NotInited
    | ShortOfMemory | RiskAppNumExceeded

  /** `sent` is what the listener has received so far, oldest first. */
  datatype Model = Model(inited: bool, apps: seq<App>, riskCount: nat, listening: bool, sent: seq<Note>)

  // ---------------------------------------------------------------- one chain

  /** The stamps before the first one that is not newer than `t`. */
  function Cut(stamps: seq<int>, t: int): (r: seq<int>)
    ensures r <= stamps && forall k :: 0 <= k < |r| ==> r[k] > t
    ensures |r| < |stamps| ==> stamps[|r|] <= t
  {
    if stamps == [] || stamps[0] <= t then [] else [stamps[0]] + Cut(stamps[1..], t)
  }

  function ChangeChain(c: Chain, t: int, opt: nat): Chain {
    if opt == OUT_OF_STORAGE_LIFE then Chain(c.count - (|c.stamps| - |Cut(c.stamps, t)|), Cut(c.stamps, t))
    else if opt == EVENT_REPORTED then Chain(c.count + 1, [t] + c.stamps)
    else c
  }

  // ---------------------------------------------------------------- one application

  function TotalCount(cs: seq<Chain>): int {
    if cs == [] then 0 else TotalCount(cs[..|cs| - 1]) + cs[|cs| - 1].count
  }

  function EventCount(cs: seq<Chain>): int {
    if cs == [] then 0 else EventCount(cs[..|cs| - 1]) + if cs[|cs| - 1].count != 0 then 1 else 0
  }

  function Assess(cs: seq<Chain>): Status {
    Status(if TotalCount(cs) > MAX_ERRORS || EventCount(cs) == ERROR_TYPES then LogReport else NoRisk,
           EventCount(cs), TotalCount(cs))
  }

  /** The application after one report or expiry, with its status derived anew. */
  function ChangeApp(a: App, r: Report, opt: nat): App
    requires r.errorType < |a.chains|
  {
    var cs := a.chains[r.errorType := ChangeChain(a.chains[r.errorType], r.time, opt)];
    App(a.tokenId, Assess(cs), cs)
  }

  const NO_CHAINS := [Chain(0, []), Chain(0, []), Chain(0, []), Chain(0, []), Chain(0, [])]

  function NewApp(tokenId: nat): App {
    App(tokenId, Status(NoRisk, 0, 0), NO_CHAINS)
  }

  // ---------------------------------------------------------------- the whole model

  function Bump(count: nat, was: Policy, now: Policy): nat {
    if now == NoRisk && was != NoRisk then if count > 0 then count - 1 else count
    else if now != NoRisk && was == NoRisk then if count < MAX_RISK_APPS then count + 1 else count
    else count
  }

  /** Position of the first application with this token. */
  function FindApp(apps: seq<App>, tokenId: nat): (r: Option<nat>)
    ensures r.Some? ==> r.value < |apps| && apps[r.value].tokenId == tokenId
    ensures r.Some? ==> forall k :: 0 <= k < r.value ==> apps[k].tokenId != tokenId
    ensures r.None? ==> forall k :: 0 <= k < |apps| ==> apps[k].tokenId != tokenId
  {
    if apps == [] then None
    else if apps[0].tokenId == tokenId then Some(0)
    else
      var r := FindApp(apps[1..], tokenId);
      assert r.None? ==> forall k :: 0 < k < |apps| ==> apps[k] == apps[1..][k - 1];
      if r.Some? then Some(r.value + 1) else None
  }

  datatype Result = Result(model: Model, code: Code)

  function UpdateApp(m: Model, i: nat, r: Report, opt: nat): Result
    requires i < |m.apps| && r.errorType < |m.apps[i].chains|
  {
    var a := ChangeApp(m.apps[i], r, opt);
    var count := Bump(m.riskCount, m.apps[i].status.policy, a.status.policy);
    var m1 := m.(apps := m.apps[i := a], riskCount := count);
    if count >= MAX_RISK_APPS then Result(m1, RiskAppNumExceeded)
    else if a.status.policy == m.apps[i].status.policy || !m.listening then Result(m1, Success)
    else Result(m1.(sent := m.sent + [Note(a.tokenId, a.status.policy)]), Success)
  }

  /** A new application enters at the head of the list, without telling the listener. */
  function AddApp(m: Model, r: Report, opt: nat): Result
    requires r.errorType < ERROR_TYPES
  {
    var a := ChangeApp(NewApp(r.tokenId), r, opt);
    Result(m.(apps := [a] + m.apps, riskCount := Bump(m.riskCount, NoRisk, a.status.policy)), Success)
  }

  predicate WellSized(m: Model) {
    forall i :: 0 <= i < |m.apps| ==> |m.apps[i].chains| == ERROR_TYPES
  }

  function Process(m: Model, r: Report, opt: nat): Result
    requires WellSized(m)
  {
    if r.tokenId == INVALID_TOKEN_ID then Result(m, TokenIdInvalid)
    else if r.errorType >= ERROR_TYPES then Result(m, EventTypeInvalid)
    else if opt >= DATA_CHANGE_TYPES then Result(m, OperTypeInvalid)
    else if !m.inited then Result(m, NotInited)
    else match FindApp(m.apps, r.tokenId)
      case Some(i) => UpdateApp(m, i, r, opt)
      case None => if opt == OUT_OF_STORAGE_LIFE then Result(m, Success) else AddApp(m, r, opt)
  }

  datatype Event = Data(r: Report, opt: nat) | StartUp | Subscribe | ShutDown

  function Step(m: Model, e: Event): Result
    requires WellSized(m)
  {
    match e
    case Data(r, opt) => Process(m, r, opt)
    case StartUp => if m.inited then Result(m, InitRepeat) else Result(m.(inited := true, apps := []), Success)
    case Subscribe => if m.inited then Result(m.(listening := true), Success) else Result(m, NotInited)
    case ShutDown => if m.inited then Result(Model(false, [], 0, false, m.sent), Success) else Result(m, Success)
  }

  /** The state after a whole run. */
  function After(m: Model, evs: seq<Event>): (r: Model)
    requires WellSized(m)
    ensures WellSized(r)
  {
    if evs == [] then m else Step(After(m, evs[..|evs| - 1]), evs[|evs| - 1]).model
  }

  const BLANK := Model(false, [], 0, false, [])

  // ---------------------------------------------------------------- the query

  function Risky(apps: seq<App>): seq<Note> {
    if apps == [] then []
    else (if apps[0].status.policy != NoRisk then [Note(apps[0].tokenId, apps[0].status.policy)] else [])
         + Risky(apps[1..])
  }

  // ---------------------------------------------------------------- one event in plain terms

  /** The answers to bad input, in this order, none of which changes anything. */
  lemma RejectsBadInput(m: Model, r: Report, opt: nat)
    requires WellSized(m)
    ensures var out := Process(m, r, opt);
      && (r.tokenId == 0 ==> out == Result(m, TokenIdInvalid))
      && (r.tokenId != 0 && r.errorType >= 5 ==> out == Result(m, EventTypeInvalid))
      && (r.tokenId != 0 && r.errorType < 5 && opt >= 2 ==> out == Result(m, OperTypeInvalid))
      && (r.tokenId != 0 && r.errorType < 5 && opt < 2 && !m.inited ==> out == Result(m, NotInited))
  {
  }

  predicate Accepted(m: Model, r: Report, opt: nat) {
    r.tokenId != 0 && r.errorType < 5 && opt < 2 && m.inited
  }

  /** An event about an unknown application: an expiry (1) changes nothing, a report (0) puts it first in the list and
      tells nobody. */
  lemma UnknownApplication(m: Model, r: Report, opt: nat)
    requires WellSized(m) && Accepted(m, r, opt) && forall k :: 0 <= k < |m.apps| ==> m.apps[k].tokenId != r.tokenId
    ensures var out := Process(m, r, opt);
      && out.code == Success && out.model.sent == m.sent && out.model.listening == m.listening && out.model.inited
      && (opt == 1 ==> out.model == m)
      && (opt == 0 ==> |out.model.apps| == |m.apps| + 1 && out.model.apps[0].tokenId == r.tokenId
                       && out.model.apps[1..] == m.apps)
  {
    hide ChangeApp;
    assert ChangeApp(NewApp(r.tokenId), r, opt).tokenId == r.tokenId by { SameToken(NewApp(r.tokenId), r, opt); }
  }

  lemma SameToken(a: App, r: Report, opt: nat)
    requires r.errorType < |a.chains|
    ensures ChangeApp(a, r, opt).tokenId == a.tokenId
  {
  }

  /** An event about a known application changes that one only. The answer is that there are too many risky
      applications exactly when the new count is at 102400; the listener hears the new policy exactly when it changed,
      somebody listens and the count is below that. */
  lemma KnownApplication(m: Model, r: Report, opt: nat, i: nat)
    requires WellSized(m) && Accepted(m, r, opt) && i < |m.apps| && m.apps[i].tokenId == r.tokenId
    requires forall k :: 0 <= k < i ==> m.apps[k].tokenId != r.tokenId
    ensures var out := Process(m, r, opt);
      && |out.model.apps| == |m.apps| && out.model.apps[i].tokenId == r.tokenId
      && (forall k :: 0 <= k < |m.apps| && k != i ==> out.model.apps[k] == m.apps[k])
      && out.model.inited && out.model.listening == m.listening
      && out.code == (if out.model.riskCount >= 102400 then RiskAppNumExceeded else Success)
      && var p := out.model.apps[i].status.policy;
         out.model.sent == if p != m.apps[i].status.policy && m.listening && out.model.riskCount < 102400
                           then m.sent + [Note(r.tokenId, p)] else m.sent
  {
    hide ChangeApp, Bump;
    assert FindApp(m.apps, r.tokenId) == Some(i);
    SameToken(m.apps[i], r, opt);
  }

  /** Starting, subscribing and stopping: a second start and a subscription before the start are refused and change
      nothing; a start comes up with no application, a stop forgets applications, count and listener. */
  lemma Lifecycle(m: Model)
    requires WellSized(m)
    ensures m.inited ==> Step(m, StartUp) == Result(m, InitRepeat)
    ensures !m.inited ==>
      && Step(m, StartUp).code == Success && Step(m, StartUp).model.inited && Step(m, StartUp).model.apps == []
      && Step(m, Subscribe) == Result(m, NotInited) && Step(m, ShutDown).model == m
    ensures m.inited ==>
      && Step(m, Subscribe).code == Success && Step(m, Subscribe).model == m.(listening := true)
      && var off := Step(m, ShutDown).model;
         !off.inited && off.apps == [] && off.riskCount == 0 && !off.listening && off.sent == m.sent
  {
  }
}
