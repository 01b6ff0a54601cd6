/** The risk model as the imperative program it is, proved against its pure transitions. */
module RiskLib {
  import opened Options
  import opened RiskModel
  import opened RiskProperties

  /** Size of one result record in bytes. */
  const NOTE_SIZE := 16

  lemma {:induction false} CutAt(stamps: seq<int>, t: int, n: nat)
    requires n <= |stamps| && (n < |stamps| ==> stamps[n] <= t)
    requires forall k :: 0 <= k < n ==> stamps[k] > t
    ensures Cut(stamps, t) == stamps[..n]
    decreases n
  {
    if n > 0 {
      CutAt(stamps[1..], t, n - 1);
    }
  }

  method DataPreProcess(c: Chain, time: int, opt: nat) returns (r: Chain)
    ensures r == ChangeChain(c, time, opt)
  {
    if opt == OUT_OF_STORAGE_LIFE {
      var cut := 0;
      while cut < |c.stamps| && c.stamps[cut] > time
        invariant 0 <= cut <= |c.stamps|
        invariant forall k :: 0 <= k < cut ==> c.stamps[k] > time
      {
        cut := cut + 1;
      }
      CutAt(c.stamps, time, cut);
      var count, rest := c.count, c.stamps[cut..];
      while rest != []
        invariant count == c.count - (|c.stamps| - cut - |rest|)
        decreases |rest|
      {
        rest := rest[1..];
        count := count - 1;
      }
      return Chain(count, c.stamps[..cut]);
    }
    if opt == EVENT_REPORTED {
      return Chain(c.count + 1, [time] + c.stamps);
    }
    return c;
  }

  method DeriveStatus(cs: seq<Chain>) returns (s: Status)
    requires |cs| == ERROR_TYPES
    ensures s == Assess(cs)
  {
    var totalCount, eventCount := 0, 0;
    for i := 0 to ERROR_TYPES
      invariant totalCount == TotalCount(cs[..i]) && eventCount == EventCount(cs[..i])
    {
      assert cs[..i + 1][..i] == cs[..i];
      totalCount := totalCount + cs[i].count;
      eventCount := eventCount + if cs[i].count != 0 then 1 else 0;
    }
    assert cs[..5] == cs;
    s := Status(if totalCount > MAX_ERRORS || eventCount == ERROR_TYPES then LogReport else NoRisk,
                eventCount, totalCount);
  }

  /** The loop of the query: risky applications in list order until `limit` are found. */
  method Collect(apps: seq<App>, limit: nat) returns (notes: seq<Note>)
    requires limit <= |Risky(apps)|
    ensures notes == Risky(apps)[..limit]
  {
    notes := [];
    var i := 0;
    assert apps[0..] == apps;
    while i < |apps| && |notes| != limit
      invariant 0 <= i <= |apps| && |notes| <= limit
      invariant Risky(apps) == notes + Risky(apps[i..])
    {
      assert apps[i..][1..] == apps[i + 1..];
      if apps[i].status.policy != NoRisk {
        ghost var n, rest := Note(apps[i].tokenId, apps[i].status.policy), Risky(apps[i + 1..]);
        assert notes + ([n] + rest) == (notes + [n]) + rest;
        notes := notes + [Note(apps[i].tokenId, apps[i].status.policy)];
      }
      i := i + 1;
    }
  }

  lemma NothingListed(apps: seq<App>)
    ensures AllRisky(apps, []) && InListOrder(apps, []) && WithoutGap(apps, [])
  {
  }

  class Engine {
    var inited: bool
    var apps: seq<App>
    var riskCount: nat
    var listening: bool
    var sent: seq<Note>

    function State(): Model
      reads this
    {
      Model(inited, apps, riskCount, listening, sent)
    }

    constructor ()
      ensures State() == BLANK
    {
      inited, apps, riskCount, listening, sent := false, [], 0, false, [];
    }

    method FindExistingNode(tokenId: nat) returns (i: nat)
      ensures i <= |apps|
      ensures i == |apps| <==> FindApp(apps, tokenId).None?
      ensures i < |apps| ==> FindApp(apps, tokenId) == Some(i)
    {
      i := 0;
      while i < |apps| && apps[i].tokenId != tokenId
        invariant i <= |apps| && forall k :: 0 <= k < i ==> apps[k].tokenId != tokenId
      {
        i := i + 1;
      }
    }

    /** Derives the status of application `i` anew and adjusts the risky count. */
    method IsRiskStatusChanged(i: nat) returns (changed: bool)
      requires i < |apps| && |apps[i].chains| == ERROR_TYPES
      modifies this`apps, this`riskCount
      ensures apps == old(apps)[i := old(apps)[i].(status := Assess(old(apps)[i].chains))]
      ensures changed <==> apps[i].status.policy != old(apps)[i].status.policy
      ensures riskCount == Bump(old(riskCount), old(apps)[i].status.policy, apps[i].status.policy)
    {
      var policy := apps[i].status.policy;
      var status := DeriveStatus(apps[i].chains);
      apps := apps[i := apps[i].(status := status)];
      if status.policy == NoRisk && policy != NoRisk {
        if riskCount > 0 {
          riskCount := riskCount - 1;
        }
      } else if status.policy != NoRisk && policy == NoRisk {
        if riskCount < MAX_RISK_APPS {
          riskCount := riskCount + 1;
        }
      }
      return status.policy != policy;
    }

    method UpdateInfoInCurrNode(r: Report, i: nat, opt: nat) returns (code: Code)
      requires i < |apps| && |apps[i].chains| == ERROR_TYPES && r.errorType < ERROR_TYPES
      modifies this
      ensures Result(State(), code) == UpdateApp(old(State()), i, r, opt)
    {
      hide Assess;
      ghost var before := apps;
      var chain := DataPreProcess(apps[i].chains[r.errorType], r.time, opt);
      apps := apps[i := apps[i].(chains := apps[i].chains[r.errorType := chain])];
      var changed := IsRiskStatusChanged(i);
      assert apps == before[i := ChangeApp(before[i], r, opt)];
      if riskCount >= MAX_RISK_APPS {
        return RiskAppNumExceeded;
      }
      if !changed {
        return Success;
      }
      if !listening {
        return Success;
      }
      sent := sent + [Note(apps[i].tokenId, apps[i].status.policy)];
      return Success;
    }

    method AddNewAppInfoNode(r: Report, opt: nat) returns (code: Code)
      requires r.errorType < ERROR_TYPES
      modifies this
      ensures Result(State(), code) == AddApp(old(State()), r, opt)
    {
      hide Assess;
      ghost var before := apps;
      var node := NewApp(r.tokenId);
      apps := [node] + apps;
      var chain := DataPreProcess(node.chains[r.errorType], r.time, opt);
      node := node.(chains := node.chains[r.errorType := chain]);
      apps := apps[0 := node];
      var changed := IsRiskStatusChanged(0);
      assert apps == [ChangeApp(NewApp(r.tokenId), r, opt)] + before;
      return Success;
    }

    method DataProcess(r: Report, opt: nat) returns (code: Code)
      requires WellSized(State())
      modifies this
      ensures Result(State(), code) == Process(old(State()), r, opt)
    {
      if r.tokenId == INVALID_TOKEN_ID {
        return TokenIdInvalid;
      }
      if r.errorType >= ERROR_TYPES {
        return EventTypeInvalid;
      }
      if opt >= DATA_CHANGE_TYPES {
        return OperTypeInvalid;
      }
      if !inited {
        return NotInited;
      }
      var i := FindExistingNode(r.tokenId);
      if i < |apps| {
        code := UpdateInfoInCurrNode(r, i, opt);
        return;
      }
      if opt == OUT_OF_STORAGE_LIFE {
        return Success;
      }
      code := AddNewAppInfoNode(r, opt);
    }

    method Init() returns (code: Code)
      requires WellSized(State())
      modifies this
      ensures Result(State(), code) == Step(old(State()), StartUp)
    {
      if inited {
        return InitRepeat;
      }
      inited, apps := true, [];
      return Success;
    }

    method SubscribeResult() returns (code: Code)
      requires WellSized(State())
      modifies this
      ensures Result(State(), code) == Step(old(State()), Subscribe)
    {
      if !inited {
        return NotInited;
      }
      listening := true;
      return Success;
    }

    method Release()
      requires WellSized(State())
      modifies this
      ensures State() == Step(old(State()), ShutDown).model
    {
      if !inited {
        return;
      }
      while apps != []
        modifies this`apps
        invariant riskCount == old(riskCount) && sent == old(sent)
        decreases |apps|
      {
        apps := apps[1..];
      }
      inited, listening, riskCount := false, false, 0;
    }

    /** Copies out the first `riskCount` risky applications in list order, each token once: whoever is listed is
        risky, stands in the list where the listing says, and has no unlisted risky application before it. */
    method GetResult(resultLen: nat) returns (code: Code, notes: seq<Note>)
      requires Inv(State())
      ensures !inited ==> code == NotInited
      ensures inited && resultLen < riskCount * NOTE_SIZE ==> code == ShortOfMemory
      ensures inited && resultLen >= riskCount * NOTE_SIZE ==>
        code == Success && |notes| == riskCount && notes == Risky(apps)[..riskCount]
      ensures forall i, j :: 0 <= i < j < |notes| ==> notes[i].tokenId != notes[j].tokenId
      ensures inited && resultLen < riskCount * 16 ==> code == ShortOfMemory
      ensures inited && resultLen >= riskCount * 16 ==> code == Success && |notes| == riskCount
      ensures AllRisky(apps, notes) && InListOrder(apps, notes) && WithoutGap(apps, notes)
    {
      hide Risky, WellDerived, AllRisky, InListOrder, WithoutGap;
      if !inited {
        NothingListed(apps);
        return NotInited, [];
      }
      if resultLen < riskCount * NOTE_SIZE {
        NothingListed(apps);
        return ShortOfMemory, [];
      }
      RiskyMeaning(apps);
      notes := Collect(apps, riskCount);
      ListingOrder(apps, riskCount);
      return Success, notes;
    }
  }
}
