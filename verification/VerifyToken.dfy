/** Permission verification: the single checks and the batch check that asks the
    kernel first and sends the service only what the kernel could not answer. */
module VerifyToken {
  import opened Options
  import TokenId

  const GRANTED := 0
  const DENIED := -1
  const ERR_OK := 0
  const SYSTEM_APP_UNIT := 0x1_0000_0000

  /** Everything the client asks others: the opcode table, the kernel (None when it cannot answer), the
      service's single and batch replies, and the caller's own 64-bit token. */
  datatype World = World(opcode: string -> Option<nat>, kernel: (nat, nat) -> Option<bool>,
                         service: (nat, string) -> int, batch: (nat, seq<string>) -> (int, seq<int>), self: nat)

  predicate IsRender(tokenId: nat) {
    TokenId.ReadInner(tokenId).renderFlag == 1
  }

  /** A normal application may only look at itself in the kernel. */
  predicate NeedsIpc(w: World, tokenId: nat) {
    var low := w.self % 0x1_0000_0000;
    && low != 0 && TokenId.ReadInner(low).kind == 0 && (w.self / SYSTEM_APP_UNIT) % 2 == 0
    && low != tokenId
  }

  function KernelThenService(w: World, tokenId: nat, perm: string): int {
    match w.opcode(perm)
    case None => DENIED
    case Some(code) =>
      match w.kernel(tokenId, code)
      case None => w.service(tokenId, perm)
      case Some(granted) => if granted then GRANTED else DENIED
  }

  /** The two-argument check. */
  function Single(w: World, tokenId: nat, perm: string): int {
    if IsRender(tokenId) then DENIED
    else if NeedsIpc(w, tokenId) then w.service(tokenId, perm)
    else KernelThenService(w, tokenId, perm)
  }

  /** The check with an explicit IPC flag: an undefined name is denied before anyone is asked. */
  function SingleIpc(w: World, tokenId: nat, perm: string, crossIpc: bool): int {
    if IsRender(tokenId) || w.opcode(perm).None? then DENIED
    else if crossIpc || NeedsIpc(w, tokenId) then w.service(tokenId, perm)
    else KernelThenService(w, tokenId, perm)
  }

  // ---------------------------------------------------------------- the answers

  /** The token is a render process: bit 25 of its ID. */
  predicate RenderBit(tokenId: nat) {
    (tokenId / 0x200_0000) % 2 == 1
  }

  /** The caller is an application, but not a system application, and asks about another token. */
  predicate AsksAboutOther(self: nat, tokenId: nat) {
    var low := self % 0x1_0000_0000;
    low != 0 && low != tokenId && (low / 0x800_0000) % 4 == 0 && (self / 0x1_0000_0000) % 2 == 0
  }

  lemma TokenBits(w: World, tokenId: nat)
    ensures IsRender(tokenId) <==> RenderBit(tokenId)
    ensures NeedsIpc(w, tokenId) <==> AsksAboutOther(w.self, tokenId)
  {
  }

  /** The two-argument check: a render process is denied, another token's permissions are the service's to decide,
      otherwise undefined names are denied, the kernel's answer is passed on, and a kernel miss goes to the service. */
  lemma SingleAnswers(w: World, tokenId: nat, perm: string)
    ensures var r := Single(w, tokenId, perm);
      if RenderBit(tokenId) then r == -1
      else if AsksAboutOther(w.self, tokenId) then r == w.service(tokenId, perm)
      else match w.opcode(perm)
        case None => r == -1
        case Some(code) =>
          && (w.kernel(tokenId, code) == Some(true) ==> r == 0)
          && (w.kernel(tokenId, code) == Some(false) ==> r == -1)
          && (w.kernel(tokenId, code) == None ==> r == w.service(tokenId, perm))
  {
    TokenBits(w, tokenId);
  }

  /** The flagged check: the same, but undefined names are denied first and the flag also sends it to the service. */
  lemma SingleIpcAnswers(w: World, tokenId: nat, perm: string, crossIpc: bool)
    ensures var r := SingleIpc(w, tokenId, perm, crossIpc);
      if RenderBit(tokenId) then r == -1
      else match w.opcode(perm)
        case None => r == -1
        case Some(code) =>
          if crossIpc || AsksAboutOther(w.self, tokenId) then r == w.service(tokenId, perm)
          else
            && (w.kernel(tokenId, code) == Some(true) ==> r == 0)
            && (w.kernel(tokenId, code) == Some(false) ==> r == -1)
            && (w.kernel(tokenId, code) == None ==> r == w.service(tokenId, perm))
  {
    TokenBits(w, tokenId);
  }

  // ---------------------------------------------------------------- the batch check

  predicate KernelMisses(w: World, tokenId: nat, perm: string) {
    w.opcode(perm).Some? && w.kernel(tokenId, w.opcode(perm).value).None?
  }

  /** The permissions the kernel could not answer, in order. */
  function Misses(w: World, tokenId: nat, perms: seq<string>): seq<string> {
    if perms == [] then []
    else Misses(w, tokenId, perms[..|perms| - 1])
         + if KernelMisses(w, tokenId, perms[|perms| - 1]) then [perms[|perms| - 1]] else []
  }

  lemma {:induction false} MissAt(w: World, tokenId: nat, perms: seq<string>, i: nat)
    requires i < |perms| && KernelMisses(w, tokenId, perms[i])
    ensures var k := |Misses(w, tokenId, perms[..i])|;
      k < |Misses(w, tokenId, perms)| && Misses(w, tokenId, perms)[k] == perms[i]
    decreases |perms|
  {
    var n := |perms| - 1;
    if i < n {
      MissAt(w, tokenId, perms[..n], i);
      assert perms[..n][..i] == perms[..i];
    }
  }

  lemma {:induction false} MissesGrow(w: World, tokenId: nat, perms: seq<string>, i: nat, j: nat)
    requires i <= j <= |perms|
    ensures |Misses(w, tokenId, perms[..i])| <= |Misses(w, tokenId, perms[..j])|
    decreases j
  {
    if i < j {
      MissesGrow(w, tokenId, perms, i, j - 1);
      assert perms[..j][..j - 1] == perms[..j - 1];
    }
  }

  /** What the client fills in before asking the service, and what a reply adds to it. */
  function Filled(w: World, tokenId: nat, perms: seq<string>, i: nat, reply: seq<int>): int
    requires i < |perms|
  {
    var k := |Misses(w, tokenId, perms[..i])|;
    if !KernelMisses(w, tokenId, perms[i]) then KernelThenService(w, tokenId, perms[i])
    else if k < |reply| then reply[k]
    else DENIED
  }

  method VerifyBatch(w: World, tokenId: nat, perms: seq<string>, crossIpc: bool) returns (code: int, states: seq<int>)
    ensures IsRender(tokenId) ==>
      code == ERR_OK && |states| == |perms| && forall i :: 0 <= i < |states| ==> states[i] == DENIED
    ensures !IsRender(tokenId) && (crossIpc || NeedsIpc(w, tokenId)) ==> (code, states) == w.batch(tokenId, perms)
    ensures !IsRender(tokenId) && !crossIpc && !NeedsIpc(w, tokenId) ==>
      var misses := Misses(w, tokenId, perms);
      var reply := if misses == [] || w.batch(tokenId, misses).0 != ERR_OK then [] else w.batch(tokenId, misses).1;
      && code == (if misses == [] then ERR_OK else w.batch(tokenId, misses).0)
      && |states| == |perms| && forall i :: 0 <= i < |perms| ==> states[i] == Filled(w, tokenId, perms, i, reply)
    ensures RenderBit(tokenId) ==> code == 0 && forall i :: 0 <= i < |states| ==> states[i] == -1
    ensures !RenderBit(tokenId) && !crossIpc && !AsksAboutOther(w.self, tokenId) ==>
      |states| == |perms| && forall i :: 0 <= i < |perms| ==>
        match w.opcode(perms[i])
        case None => states[i] == -1
        case Some(op) =>
          && (w.kernel(tokenId, op) == Some(true) ==> states[i] == 0)
          && (w.kernel(tokenId, op) == Some(false) ==> states[i] == -1)
          && (w.kernel(tokenId, op) == None && code != 0 ==> states[i] == -1)
  {
    TokenBits(w, tokenId);
    if IsRender(tokenId) {
      return ERR_OK, seq(|perms|, i => DENIED);
    }
    if crossIpc || NeedsIpc(w, tokenId) {
      var r := w.batch(tokenId, perms);
      return r.0, r.1;
    }
    var cross: seq<string>, slot: map<nat, nat>;
    states, cross, slot := AskKernel(w, tokenId, perms);
    if cross == [] {
      return ERR_OK, states;
    }
    var r := w.batch(tokenId, cross);
    if r.0 != ERR_OK {
      return r.0, states;
    }
    states := FillIn(w, tokenId, perms, states, slot, r.1);
    return ERR_OK, states;
  }

  /** Where the answer for the k-th missed permission goes. */
  ghost predicate SlotsFor(w: World, tokenId: nat, perms: seq<string>, slot: map<nat, nat>, n: nat) {
    && n <= |perms|
    && (forall k :: k in slot <==> 0 <= k < |Misses(w, tokenId, perms[..n])|)
    && (forall k :: k in slot ==> slot[k] < n && KernelMisses(w, tokenId, perms[slot[k]])
                                  && k == |Misses(w, tokenId, perms[..slot[k]])|)
  }

  method AskKernel(w: World, tokenId: nat, perms: seq<string>)
    returns (states: seq<int>, cross: seq<string>, slot: map<nat, nat>)
    ensures cross == Misses(w, tokenId, perms) && SlotsFor(w, tokenId, perms, slot, |perms|)
    ensures |states| == |perms| && forall i :: 0 <= i < |perms| ==> states[i] == Filled(w, tokenId, perms, i, [])
  {
    states := seq(|perms|, i => DENIED);
    cross, slot := [], map[];
    for i := 0 to |perms|
      invariant |states| == |perms| && cross == Misses(w, tokenId, perms[..i]) && SlotsFor(w, tokenId, perms, slot, i)
      invariant forall k :: 0 <= k < i ==> states[k] == Filled(w, tokenId, perms, k, [])
      invariant forall k :: i <= k < |perms| ==> states[k] == DENIED
    {
      assert perms[..i + 1][..i] == perms[..i];
      var code := w.opcode(perms[i]);
      if code.None? {
        states := states[i := DENIED];
        continue;
      }
      var answer := w.kernel(tokenId, code.value);
      if answer.None? {
        slot := slot[|cross| := i];
        cross := cross + [perms[i]];
        continue;
      }
      states := states[i := if answer.value then GRANTED else DENIED];
    }
    assert perms[..|perms|] == perms;
  }

  method FillIn(w: World, tokenId: nat, perms: seq<string>, before: seq<int>, slot: map<nat, nat>, reply: seq<int>)
    returns (states: seq<int>)
    requires SlotsFor(w, tokenId, perms, slot, |perms|)
    requires |before| == |perms| && forall i :: 0 <= i < |perms| ==> before[i] == Filled(w, tokenId, perms, i, [])
    ensures |states| == |perms| && forall i :: 0 <= i < |perms| ==> states[i] == Filled(w, tokenId, perms, i, reply)
  {
    states := before;
    for k := 0 to |reply|
      invariant |states| == |perms|
      invariant forall i :: 0 <= i < |perms| ==> states[i] == Filled(w, tokenId, perms, i, reply[..k])
    {
      if k in slot {
        states := states[slot[k] := reply[k]];
      }
      forall i | 0 <= i < |perms| ensures states[i] == Filled(w, tokenId, perms, i, reply[..k + 1]) {
        if KernelMisses(w, tokenId, perms[i]) && |Misses(w, tokenId, perms[..i])| == k {
          MissAt(w, tokenId, perms, i);
          assert perms[..|perms|] == perms;
          SlotUnique(w, tokenId, perms, i, slot[k]);
        }
      }
    }
    assert reply[..|reply|] == reply;
  }

  lemma SlotUnique(w: World, tokenId: nat, perms: seq<string>, i: nat, j: nat)
    requires i < |perms| && j < |perms| && KernelMisses(w, tokenId, perms[i]) && KernelMisses(w, tokenId, perms[j])
    requires |Misses(w, tokenId, perms[..i])| == |Misses(w, tokenId, perms[..j])|
    ensures i == j
  {
    assert perms[..i + 1][..i] == perms[..i] && perms[..j + 1][..j] == perms[..j];
    if i < j {
      MissesGrow(w, tokenId, perms, i + 1, j);
    } else if j < i {
      MissesGrow(w, tokenId, perms, j + 1, i);
    }
  }

  // ---------------------------------------------------------------- batch against single

  /** The service answers a batch element by element as it answers single requests. */
  ghost predicate Consistent(w: World, tokenId: nat, perms: seq<string>) {
    var r := w.batch(tokenId, perms);
    r.0 == ERR_OK ==> |r.1| == |perms| && forall i :: 0 <= i < |perms| ==> r.1[i] == w.service(tokenId, perms[i])
  }

  /** Filling in a consistent reply gives, at every position, the single answer. */
  lemma FilledIsSingle(w: World, tokenId: nat, perms: seq<string>, i: nat)
    requires i < |perms| && !IsRender(tokenId) && !NeedsIpc(w, tokenId)
    requires var misses := Misses(w, tokenId, perms);
      misses != [] ==> Consistent(w, tokenId, misses) && w.batch(tokenId, misses).0 == ERR_OK
    ensures var misses := Misses(w, tokenId, perms);
      Filled(w, tokenId, perms, i, if misses == [] then [] else w.batch(tokenId, misses).1)
      == Single(w, tokenId, perms[i])
  {
    if KernelMisses(w, tokenId, perms[i]) {
      MissAt(w, tokenId, perms, i);
    }
  }

  /** The batch check without forced IPC agrees with the two-argument check at every position, for any mix
      of undefined names, kernel answers, kernel misses and duplicates. */
  method VerifyBatchRefined(w: World, tokenId: nat, perms: seq<string>) returns (code: int, states: seq<int>)
    requires Consistent(w, tokenId, perms) && Consistent(w, tokenId, Misses(w, tokenId, perms))
    ensures code == ERR_OK ==>
      |states| == |perms| && forall i :: 0 <= i < |perms| ==> states[i] == Single(w, tokenId, perms[i])
  {
    code, states := VerifyBatch(w, tokenId, perms, false);
    if code == ERR_OK && !IsRender(tokenId) && !NeedsIpc(w, tokenId) {
      forall i | 0 <= i < |perms| ensures states[i] == Single(w, tokenId, perms[i]) {
        FilledIsSingle(w, tokenId, perms, i);
      }
    }
  }

  /** The two single checks agree, without forced IPC, exactly unless a normal application asks about another
      token's undefined permission and the service does not deny it. */
  lemma SinglesAgree(w: World, tokenId: nat, perm: string)
    ensures Single(w, tokenId, perm) == SingleIpc(w, tokenId, perm, false) <==>
      !(!IsRender(tokenId) && NeedsIpc(w, tokenId) && w.opcode(perm).None? && w.service(tokenId, perm) != DENIED)
  {
  }

  /** With forced IPC the batch agrees with the flagged single check at position `i` exactly when the token is a
      render process, the name is defined, or the service denies it. */
  method VerifyBatchForced(w: World, tokenId: nat, perms: seq<string>) returns (code: int, states: seq<int>)
    requires Consistent(w, tokenId, perms)
    ensures code == ERR_OK ==> |states| == |perms|
    ensures code == ERR_OK ==> forall i :: 0 <= i < |perms| ==>
      (states[i] == SingleIpc(w, tokenId, perms[i], true) <==>
       IsRender(tokenId) || w.opcode(perms[i]).Some? || w.service(tokenId, perms[i]) == DENIED)
  {
    code, states := VerifyBatch(w, tokenId, perms, true);
  }

  // ---------------------------------------------------------------- with the repository's own service

  const ERR_SERVICE_ABNORMAL := 12100012
  const NATIVE_KIND := 1

  /** The client's way to the service: whether it has a proxy, whether the service has ever been started, whether
      the call gets through (`failure` is the error if not), and what the service decides. */
  datatype Route = Route(proxy: bool, started: bool, reachable: bool, failure: int, decide: (nat, string) -> int)

  /** A failed call denies; without a service that was ever started, native processes are trusted. */
  function AskService(c: Route, tokenId: nat, perm: string): int {
    if c.proxy then if c.reachable then c.decide(tokenId, perm) else DENIED
    else if !c.started && TokenId.ReadInner(tokenId).kind == NATIVE_KIND then GRANTED
    else DENIED
  }

  /** The service answers a batch by answering each name. */
  function AskBatch(c: Route, tokenId: nat, perms: seq<string>): (int, seq<int>) {
    if !c.proxy then (ERR_SERVICE_ABNORMAL, [])
    else if !c.reachable then (c.failure, [])
    else (ERR_OK, seq(|perms|, i requires 0 <= i < |perms| => c.decide(tokenId, perms[i])))
  }

  function Deployed(opcode: string -> Option<nat>, kernel: (nat, nat) -> Option<bool>, c: Route, self: nat): World {
    World(opcode, kernel, (t: nat, p: string) => AskService(c, t, p),
          (t: nat, ps: seq<string>) => AskBatch(c, t, ps), self)
  }

  /** An unreachable service is an error, and the service denies names that it does not know. */
  ghost predicate ServiceRules(opcode: string -> Option<nat>, c: Route) {
    && c.failure != ERR_OK
    && forall t: nat, p: string :: opcode(p).None? ==> c.decide(t, p) == DENIED
  }

  lemma DeployedConsistent(opcode: string -> Option<nat>, kernel: (nat, nat) -> Option<bool>, c: Route, self: nat,
                           tokenId: nat, perms: seq<string>)
    requires ServiceRules(opcode, c)
    ensures Consistent(Deployed(opcode, kernel, c, self), tokenId, perms)
  {
    var w := Deployed(opcode, kernel, c, self);
    assert w.batch(tokenId, perms) == AskBatch(c, tokenId, perms);
    forall i | 0 <= i < |perms| ensures w.service(tokenId, perms[i]) == AskService(c, tokenId, perms[i]) {
    }
  }

  /** With the repository's service a successful batch check is the single check at every position: the flagged one
      with forced IPC, the two-argument one without. */
  method VerifyBatchDeployed(opcode: string -> Option<nat>, kernel: (nat, nat) -> Option<bool>, c: Route, self: nat,
                             tokenId: nat, perms: seq<string>, crossIpc: bool) returns (code: int, states: seq<int>)
    requires ServiceRules(opcode, c)
    ensures code == ERR_OK ==> |states| == |perms|
    ensures code == ERR_OK ==> forall i :: 0 <= i < |perms| ==>
      states[i] == var w := Deployed(opcode, kernel, c, self);
                   if crossIpc then SingleIpc(w, tokenId, perms[i], true) else Single(w, tokenId, perms[i])
  {
    var w := Deployed(opcode, kernel, c, self);
    DeployedConsistent(opcode, kernel, c, self, tokenId, perms);
    DeployedConsistent(opcode, kernel, c, self, tokenId, Misses(w, tokenId, perms));
    if crossIpc {
      code, states := VerifyBatch(w, tokenId, perms, true);
      assert w.batch(tokenId, perms) == AskBatch(c, tokenId, perms);
      if code == ERR_OK && !IsRender(tokenId) {
        forall i | 0 <= i < |perms| ensures states[i] == SingleIpc(w, tokenId, perms[i], true) {
          assert w.service(tokenId, perms[i]) == c.decide(tokenId, perms[i]);
        }
      }
    } else {
      code, states := VerifyBatchRefined(w, tokenId, perms);
    }
  }

  /** The two single checks then differ exactly for an undefined name of another native token, asked by a normal
      application before the service was ever started. */
  lemma SinglesDiffer(opcode: string -> Option<nat>, kernel: (nat, nat) -> Option<bool>, c: Route, self: nat,
                      tokenId: nat, perm: string)
    requires ServiceRules(opcode, c)
    ensures var w := Deployed(opcode, kernel, c, self);
      Single(w, tokenId, perm) != SingleIpc(w, tokenId, perm, false) <==>
      && !IsRender(tokenId) && NeedsIpc(w, tokenId) && opcode(perm).None?
      && !c.proxy && !c.started && TokenId.ReadInner(tokenId).kind == NATIVE_KIND
  {
    var w := Deployed(opcode, kernel, c, self);
    assert w.service(tokenId, perm) == AskService(c, tokenId, perm);
  }

  /** Such an input exists, whatever the table: a name that is not in it. */
  lemma SinglesDifferExample(opcode: string -> Option<nat>, kernel: (nat, nat) -> Option<bool>, c: Route, perm: string)
    requires opcode(perm).None? && !c.proxy && !c.started
    ensures var w, id := Deployed(opcode, kernel, c, 1), TokenId.NewId(1, false);
      Single(w, id, perm) == GRANTED && SingleIpc(w, id, perm, false) == DENIED
  {
    TokenId.NewIdMeaning(1, false);
    var w := Deployed(opcode, kernel, c, 1);
    assert w.service(TokenId.NewId(1, false), perm) == GRANTED;
  }
}
