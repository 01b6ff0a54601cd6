/** The registry's lock-protected sections, its calls to the service and the one-time subscription, under every
    interleaving of threads. */
module CallbackConcurrency {
  import opened Options
  import opened CallbackRegistry

  /** Where a thread stands between two atomic sections. */
  datatype Pc =
    | Idle
    | Inserted(cb: Callback, info: Info)    // entry made, service not yet asked
    | Found(cb: Callback, info: Info)       // entry looked up for unregistration
    | Unhooked(cb: Callback, info: Info)    // service has let go of the wrapper
    | Subscribing                           // inside SubscribeSystemAbility
    | GivingUp                              // subscription failed, flag not yet cleared

  /** The client's fields, what the service holds, and where each thread stands. */
  datatype Shared = Shared(callbacks: map<Callback, Info>, next: nat, held: multiset<Info>, flag: bool,
                           subscribed: bool, pcs: seq<Pc>)

  /** `Hook` is the service taking the wrapper, `RollBack` the client undoing an entry that the service refused. */
  datatype Action =
    | Insert(cb: Callback, kind: Kind) | Hook | RollBack
    | Find(cb: Callback) | Refused | Unhook | Erase
    | CasWin | CasLose | SubscribeOk | SubscribeFail | ClearFlag

  predicate Enabled(s: Shared, t: nat, a: Action) {
    t < |s.pcs| &&
    match a
    case Insert(cb, _) => s.pcs[t] == Idle && |s.callbacks| != MAX_CALLBACK_MAP_SIZE && cb !in s.callbacks
    case Hook => s.pcs[t].Inserted?
    case RollBack => s.pcs[t].Inserted?
    case Find(cb) => s.pcs[t] == Idle && cb in s.callbacks
    case Refused => s.pcs[t].Found?
    case Unhook => s.pcs[t].Found?
    case Erase => s.pcs[t].Unhooked?
    case CasWin => s.pcs[t] == Idle && !s.flag
    case CasLose => s.pcs[t] == Idle && s.flag
    case SubscribeOk => s.pcs[t] == Subscribing
    case SubscribeFail => s.pcs[t] == Subscribing
    case ClearFlag => s.pcs[t] == GivingUp
  }

  function Act(s: Shared, t: nat, a: Action): Shared
    requires Enabled(s, t, a)
  {
    match a
    case Insert(cb, kind) =>
      var info := Info(s.next, kind);
      s.(callbacks := s.callbacks[cb := info], next := s.next + 1, pcs := s.pcs[t := Inserted(cb, info)])
    case Hook => s.(held := s.held + multiset{s.pcs[t].info}, pcs := s.pcs[t := Idle])
    case RollBack => s.(callbacks := s.callbacks - {s.pcs[t].cb}, pcs := s.pcs[t := Idle])
    case Find(cb) => s.(pcs := s.pcs[t := Found(cb, s.callbacks[cb])])
    case Refused => s.(pcs := s.pcs[t := Idle])
    case Unhook =>
      var Found(cb, info) := s.pcs[t];
      s.(held := Drop(s.held, info.wrapper), pcs := s.pcs[t := Unhooked(cb, info)])
    case Erase =>
      var Unhooked(cb, info) := s.pcs[t];
      var own := cb in s.callbacks && s.callbacks[cb].wrapper == info.wrapper;
      s.(callbacks := if own then s.callbacks - {cb} else s.callbacks, pcs := s.pcs[t := Idle])
    case CasWin => s.(flag := true, pcs := s.pcs[t := Subscribing])
    case CasLose => s
    case SubscribeOk => s.(subscribed := true, pcs := s.pcs[t := Idle])
    case SubscribeFail => s.(pcs := s.pcs[t := GivingUp])
    case ClearFlag => s.(flag := false, pcs := s.pcs[t := Idle])
  }

  datatype Move = Move(thread: nat, action: Action)

  /** A schedule is a list of moves each of which is enabled when it is made. */
  function Run(s: Shared, ms: seq<Move>): Option<Shared> {
    if ms == [] then Some(s)
    else
      var r, m := Run(s, ms[..|ms| - 1]), ms[|ms| - 1];
      if r.Some? && Enabled(r.value, m.thread, m.action) then Some(Act(r.value, m.thread, m.action)) else None
  }

  function Start(threads: nat): Shared {
    Shared(map[], 0, multiset{}, false, false, seq(threads, i => Idle))
  }

  // ---------------------------------------------------------------- safety

  /** Between winning the flag and giving it back. */
  predicate HoldsFlag(pc: Pc) {
    pc == Subscribing || pc == GivingUp
  }

  /** At most one thread holds the flag, and nobody does once a subscription has succeeded. */
  predicate FlagSafe(s: Shared) {
    && (forall i, j :: 0 <= i < j < |s.pcs| ==> !(HoldsFlag(s.pcs[i]) && HoldsFlag(s.pcs[j])))
    && (forall i :: 0 <= i < |s.pcs| && HoldsFlag(s.pcs[i]) ==> s.flag && !s.subscribed)
    && (s.subscribed ==> s.flag)
  }

  /** The map is within its cap and every wrapper stands for one callback. */
  predicate MapSafe(m: map<Callback, Info>, next: nat) {
    |m| <= MAX_CALLBACK_MAP_SIZE && Injective(m) && Below(m, next)
  }

  predicate Safe(s: Shared) {
    FlagSafe(s) && MapSafe(s.callbacks, s.next)
  }

  lemma FlagStep(s: Shared, t: nat, a: Action)
    requires FlagSafe(s) && Enabled(s, t, a)
    ensures var s' := Act(s, t, a);
      FlagSafe(s') && |s'.pcs| == |s.pcs| && (s.subscribed ==> s'.subscribed)
  {
    hide Drop;
    var s' := Act(s, t, a);
    assert forall u :: 0 <= u < |s.pcs| && u != t ==> s'.pcs[u] == s.pcs[u];
  }

  lemma InsertSafe(m: map<Callback, Info>, next: nat, cb: Callback, kind: Kind)
    requires MapSafe(m, next) && |m| != MAX_CALLBACK_MAP_SIZE && cb !in m
    ensures MapSafe(m[cb := Info(next, kind)], next + 1)
  {
    hide Injective, Below;
    AddKeepsNumbers(m, next, cb, kind);
    ValuesAfterAdd(m, cb, Info(next, kind));
  }

  lemma RemoveSafe(m: map<Callback, Info>, next: nat, cb: Callback)
    requires MapSafe(m, next)
    ensures MapSafe(m - {cb}, next)
  {
    hide Injective, Below;
    RemoveKeepsNumbers(m, next, cb);
    if cb in m {
      ValuesAfterRemove(m, cb);
    } else {
      assert m - {cb} == m;
    }
  }

  lemma MapStep(s: Shared, t: nat, a: Action)
    requires MapSafe(s.callbacks, s.next) && Enabled(s, t, a)
    ensures MapSafe(Act(s, t, a).callbacks, Act(s, t, a).next)
  {
    hide MapSafe;
    if a.Insert? {
      assert MapSafe(s.callbacks[a.cb := Info(s.next, a.kind)], s.next + 1) by {
        InsertSafe(s.callbacks, s.next, a.cb, a.kind);
      }
    } else if a.RollBack? || a.Erase? {
      RemoveSafe(s.callbacks, s.next, s.pcs[t].cb);
    }
  }

  lemma ActSafe(s: Shared, t: nat, a: Action)
    requires Safe(s) && Enabled(s, t, a)
    ensures var s' := Act(s, t, a); Safe(s') && |s'.pcs| == |s.pcs| && (s.subscribed ==> s'.subscribed)
  {
    FlagStep(s, t, a);
    MapStep(s, t, a);
  }

  /** Under any schedule of any number of threads: the map never exceeds 200 entries, wrappers stay distinct, at
      most one thread is inside the subscription, and none is, or ever enters again, after a success. */
  lemma {:induction false} EverySchedule(threads: nat, ms: seq<Move>)
    requires Run(Start(threads), ms).Some?
    ensures var s := Run(Start(threads), ms).value; Safe(s) && |s.pcs| == threads
    decreases |ms|
  {
    if ms != [] {
      EverySchedule(threads, ms[..|ms| - 1]);
      ActSafe(Run(Start(threads), ms[..|ms| - 1]).value, ms[|ms| - 1].thread, ms[|ms| - 1].action);
    }
  }

  /** Once a subscription has succeeded, no later point of the schedule has a thread inside it. */
  lemma {:induction false} NoneAfterSuccess(threads: nat, ms: seq<Move>, k: nat, t: nat)
    requires k <= |ms| && Run(Start(threads), ms).Some? && Run(Start(threads), ms[..k]).Some?
    requires Run(Start(threads), ms[..k]).value.subscribed && t < threads
    ensures var s := Run(Start(threads), ms).value; s.subscribed && |s.pcs| == threads && s.pcs[t] != Subscribing
    decreases |ms|
  {
    EverySchedule(threads, ms);
    if k < |ms| {
      var pre := ms[..|ms| - 1];
      assert pre[..k] == ms[..k];
      NoneAfterSuccess(threads, pre, k, t);
      EverySchedule(threads, pre);
      ActSafe(Run(Start(threads), pre).value, ms[|ms| - 1].thread, ms[|ms| - 1].action);
    } else {
      assert ms[..k] == ms;
    }
    assert !HoldsFlag(Run(Start(threads), ms).value.pcs[t]);
  }

  /** A failed subscription gives the flag back, so that the next thread can try; until then, and after a success, no
      other thread gets in. */
  lemma RetryAfterFailure(s: Shared, t: nat, u: nat)
    requires FlagSafe(s) && t < |s.pcs| && u < |s.pcs| && t != u && s.pcs[u] == Idle
    ensures s.pcs[t] == GivingUp ==> !Enabled(s, u, CasWin) && Enabled(Act(s, t, ClearFlag), u, CasWin)
    ensures s.pcs[t] == Subscribing ==>
      !Enabled(s, u, CasWin) && !Enabled(Act(s, t, SubscribeOk), u, CasWin)
      && Act(s, t, SubscribeFail).pcs[t] == GivingUp && Act(s, t, SubscribeOk).subscribed
  {
  }

  // ---------------------------------------------------------------- whose entry is removed

  /** A step removes nobody else's registration. */
  ghost predicate SparesOthers(s: Shared, s': Shared, own: nat) {
    forall cb :: cb in s.callbacks && s.callbacks[cb].wrapper != own ==>
      cb in s'.callbacks && s'.callbacks[cb] == s.callbacks[cb]
  }

  /** Unregistration erases only the wrapper it unhooked, even if the callback was registered anew meanwhile. */
  lemma EraseSparesOthers(s: Shared, t: nat)
    requires Safe(s) && Enabled(s, t, Erase)
    ensures SparesOthers(s, Act(s, t, Erase), s.pcs[t].info.wrapper)
  {
  }

  /** Rolling back a registration spares the others exactly when the entry is still its own or gone. */
  lemma RollBackSparesOthers(s: Shared, t: nat)
    requires Safe(s) && Enabled(s, t, RollBack)
    ensures SparesOthers(s, Act(s, t, RollBack), s.pcs[t].info.wrapper) <==>
      (s.pcs[t].cb in s.callbacks ==> s.callbacks[s.pcs[t].cb].wrapper == s.pcs[t].info.wrapper)
  {
    var cb := s.pcs[t].cb;
    assert cb !in Act(s, t, RollBack).callbacks;
  }

  /** It can be someone else's: while one thread's registration is still failing, another unregisters the
      same callback and registers it again, and the late roll-back removes the new entry. */
  lemma RollBackRace(cb: Callback, kind: Kind) returns (ms: seq<Move>, s: Shared)
    ensures Run(Start(2), ms) == Some(s) && Enabled(s, 0, RollBack)
    ensures s.pcs[0] == Inserted(cb, Info(0, kind)) && s.callbacks == map[cb := Info(1, kind)]
    ensures !SparesOthers(s, Act(s, 0, RollBack), 0)
  {
    hide Run;
    ms, s := [], Start(2);
    assert Run(s, ms) == Some(s) by { RunNone(s); }
    ms, s := Then(Start(2), ms, s, Move(0, Insert(cb, kind)));
    ms, s := Then(Start(2), ms, s, Move(1, Find(cb)));
    ms, s := Then(Start(2), ms, s, Move(1, Unhook));
    ms, s := Then(Start(2), ms, s, Move(1, Erase));
    assert s.callbacks == map[];
    ms, s := Then(Start(2), ms, s, Move(1, Insert(cb, kind)));
    assert cb in s.callbacks && cb !in Act(s, 0, RollBack).callbacks;
  }

  lemma RunNone(s: Shared)
    ensures Run(s, []) == Some(s)
  {
  }

  lemma {:induction false} Then(start: Shared, ms: seq<Move>, s: Shared, m: Move) returns (ms': seq<Move>, s': Shared)
    requires Run(start, ms) == Some(s) && Enabled(s, m.thread, m.action)
    ensures ms' == ms + [m] && s' == Act(s, m.thread, m.action) && Run(start, ms') == Some(s')
  {
    ms', s' := ms + [m], Act(s, m.thread, m.action);
    assert ms'[..|ms|] == ms;
  }

  // ---------------------------------------------------------------- client and service agree

  predicate Waits(pc: Pc, w: nat) {
    pc.Inserted? && pc.info.wrapper == w
  }

  predicate Leaves(pc: Pc, w: nat) {
    pc.Unhooked? && pc.info.wrapper == w
  }

  /** Some thread has made the entry of this wrapper and not yet heard from the service. */
  predicate Waiting(pcs: seq<Pc>, w: nat) {
    exists t :: 0 <= t < |pcs| && Waits(pcs[t], w)
  }

  /** Some thread has had the service let go of this wrapper and not yet erased its entry. */
  predicate Leaving(pcs: seq<Pc>, w: nat) {
    exists t :: 0 <= t < |pcs| && Leaves(pcs[t], w)
  }

  /** The registrations that nobody is in the middle of. */
  function Settled(m: map<Callback, Info>, pcs: seq<Pc>): set<Info> {
    set cb | cb in m && !Waiting(pcs, m[cb].wrapper) && !Leaving(pcs, m[cb].wrapper) :: m[cb]
  }

  /** The service holds exactly the settled registrations, each once and with its type. */
  ghost predicate Agrees(s: Shared) {
    Exactly(s.held, Settled(s.callbacks, s.pcs))
  }

  predicate Busy(pc: Pc) {
    pc.Inserted? || pc.Found? || pc.Unhooked?
  }

  /** Only this callback's entry can have this wrapper, and then it is this entry. */
  predicate Owns(m: map<Callback, Info>, next: nat, pc: Pc)
    requires Busy(pc)
  {
    pc.info.wrapper < next && forall c :: c in m && m[c].wrapper == pc.info.wrapper ==> c == pc.cb && m[c] == pc.info
  }

  predicate Tracked(s: Shared) {
    && (forall t :: 0 <= t < |s.pcs| && Busy(s.pcs[t]) ==> Owns(s.callbacks, s.next, s.pcs[t]))
    && (forall t, u :: 0 <= t < u < |s.pcs| && s.pcs[t].Inserted? && s.pcs[u].Inserted? ==>
          s.pcs[t].info.wrapper != s.pcs[u].info.wrapper)
  }

  lemma TrackedStep(s: Shared, t: nat, a: Action)
    requires Tracked(s) && MapSafe(s.callbacks, s.next) && Enabled(s, t, a)
    ensures Tracked(Act(s, t, a))
  {
    hide Drop, Injective;
    if a.Find? {
      FindOwns(s.callbacks, s.next, a.cb);
    }
  }

  lemma FindOwns(m: map<Callback, Info>, next: nat, cb: Callback)
    requires MapSafe(m, next) && cb in m
    ensures Owns(m, next, Found(cb, m[cb]))
  {
  }

  lemma SettledMember(m: map<Callback, Info>, pcs: seq<Pc>, i: Info)
    ensures i in Settled(m, pcs) <==>
      !Waiting(pcs, i.wrapper) && !Leaving(pcs, i.wrapper) && exists cb :: cb in m && m[cb] == i
  {
  }

  /** How moving one thread changes who waits and who leaves. */
  lemma Moved(pcs: seq<Pc>, t: nat, pc: Pc, w: nat)
    requires t < |pcs|
    ensures Waits(pc, w) ==> Waiting(pcs[t := pc], w)
    ensures Leaves(pc, w) ==> Leaving(pcs[t := pc], w)
    ensures !Waits(pcs[t], w) && !Waits(pc, w) ==> (Waiting(pcs[t := pc], w) <==> Waiting(pcs, w))
    ensures !Leaves(pcs[t], w) && !Leaves(pc, w) ==> (Leaving(pcs[t := pc], w) <==> Leaving(pcs, w))
  {
    var out := pcs[t := pc];
    assert out[t] == pc;
    forall u | 0 <= u < |pcs| && u != t ensures out[u] == pcs[u] {
    }
  }

  lemma NoLongerWaiting(s: Shared, t: nat, pc: Pc)
    requires Tracked(s) && t < |s.pcs| && s.pcs[t].Inserted? && !pc.Inserted?
    ensures !Waiting(s.pcs[t := pc], s.pcs[t].info.wrapper)
  {
  }

  /** The service taking a wrapper is right only if its entry is still there and nobody is unregistering it; a
      roll-back only if it does not take out a settled entry of another registration. */
  predicate HarmlessMove(s: Shared, t: nat, a: Action)
    requires Enabled(s, t, a)
  {
    match a
    case Hook =>
      var Inserted(cb, info) := s.pcs[t];
      cb in s.callbacks && s.callbacks[cb] == info && !Leaving(s.pcs, info.wrapper)
    case RollBack =>
      var Inserted(cb, info) := s.pcs[t];
      cb in s.callbacks && s.callbacks[cb] != info ==>
        Waiting(s.pcs, s.callbacks[cb].wrapper) || Leaving(s.pcs, s.callbacks[cb].wrapper)
    case _ => true
  }

  lemma InsertAgrees(s: Shared, t: nat, a: Action)
    requires a.Insert? && Safe(s) && Tracked(s) && Agrees(s) && Enabled(s, t, a)
    ensures Agrees(Act(s, t, a))
  {
    hide Exactly, Waiting, Leaving;
    var s', info := Act(s, t, a), Info(s.next, a.kind);
    forall i ensures i in Settled(s'.callbacks, s'.pcs) <==> i in Settled(s.callbacks, s.pcs) {
      Moved(s.pcs, t, s'.pcs[t], i.wrapper);
      SettledMember(s.callbacks, s.pcs, i);
      SettledMember(s'.callbacks, s'.pcs, i);
      if i.wrapper != s.next {
        forall cb | cb in s.callbacks && s.callbacks[cb] == i ensures cb in s'.callbacks && s'.callbacks[cb] == i {
        }
      }
    }
    assert Settled(s'.callbacks, s'.pcs) == Settled(s.callbacks, s.pcs);
  }

  lemma HookAgrees(s: Shared, t: nat)
    requires Safe(s) && Tracked(s) && Agrees(s) && Enabled(s, t, Hook)
    ensures Agrees(Act(s, t, Hook)) <==> HarmlessMove(s, t, Hook)
  {
    hide Exactly, Waiting, Leaving, Safe;
    var s', info, old' := Act(s, t, Hook), s.pcs[t].info, Settled(s.callbacks, s.pcs);
    var now := Settled(s'.callbacks, s'.pcs);
    Moved(s.pcs, t, s.pcs[t], info.wrapper);
    assert s.pcs[t := s.pcs[t]] == s.pcs;
    NoLongerWaiting(s, t, Idle);
    forall i ensures i in now <==> i in old' || (i == info && HarmlessMove(s, t, Hook)) {
      Moved(s.pcs, t, Idle, i.wrapper);
      SettledMember(s.callbacks, s.pcs, i);
      SettledMember(s.callbacks, s'.pcs, i);
    }
    SettledMember(s.callbacks, s.pcs, info);
    ExactlyAdd(s.held, old', info);
    if HarmlessMove(s, t, Hook) {
      assert now == old' + {info};
    } else {
      assert now == old';
    }
  }

  /** The entry that a roll-back takes out, or its own if there is none. */
  function TakenOut(s: Shared, t: nat): Info
    requires Enabled(s, t, RollBack)
  {
    if s.pcs[t].cb in s.callbacks then s.callbacks[s.pcs[t].cb] else s.pcs[t].info
  }

  lemma RollBackMember(s: Shared, t: nat, i: Info)
    requires MapSafe(s.callbacks, s.next) && Tracked(s) && Enabled(s, t, RollBack)
    ensures var s' := Act(s, t, RollBack);
      i in Settled(s'.callbacks, s'.pcs) <==> i in Settled(s.callbacks, s.pcs) && i != TakenOut(s, t)
  {
    hide Waiting, Leaving, Settled;
    var s', info := Act(s, t, RollBack), s.pcs[t].info;
    Moved(s.pcs, t, s.pcs[t], info.wrapper);
    assert s.pcs[t := s.pcs[t]] == s.pcs;
    Moved(s.pcs, t, Idle, i.wrapper);
    SettledMember(s.callbacks, s.pcs, i);
    SettledMember(s'.callbacks, s'.pcs, i);
    if i != TakenOut(s, t) {
      forall c | c in s.callbacks && s.callbacks[c] == i ensures c in s'.callbacks && s'.callbacks[c] == i {
      }
    }
  }

  lemma RollBackAgrees(s: Shared, t: nat)
    requires Safe(s) && Tracked(s) && Agrees(s) && Enabled(s, t, RollBack)
    ensures Agrees(Act(s, t, RollBack)) <==> HarmlessMove(s, t, RollBack)
  {
    hide Exactly, Waiting, Leaving, Settled, FlagSafe, Injective, Below, Tracked;
    var s', other := Act(s, t, RollBack), TakenOut(s, t);
    var old', now := Settled(s.callbacks, s.pcs), Settled(s'.callbacks, s'.pcs);
    forall i ensures i in now <==> i in old' && i != other {
      RollBackMember(s, t, i);
    }
    assert now == old' - {other};
    SettledMember(s.callbacks, s.pcs, other);
    Moved(s.pcs, t, s.pcs[t], s.pcs[t].info.wrapper);
    assert s.pcs[t := s.pcs[t]] == s.pcs;
    Shrunk(s.held, old', other);
  }

  /** Taking a member out of what should be held breaks agreement. */
  lemma Shrunk(held: multiset<Info>, infos: set<Info>, info: Info)
    requires Exactly(held, infos)
    ensures Exactly(held, infos - {info}) <==> info !in infos
  {
    if info in infos {
      assert held[info] == 1;
    } else {
      assert infos - {info} == infos;
    }
  }

  lemma UnhookAgrees(s: Shared, t: nat)
    requires Safe(s) && Tracked(s) && Agrees(s) && Enabled(s, t, Unhook)
    ensures Agrees(Act(s, t, Unhook))
  {
    hide Exactly, Waiting, Leaving, Safe, Drop;
    var s', info := Act(s, t, Unhook), s.pcs[t].info;
    var old', now := Settled(s.callbacks, s.pcs), Settled(s'.callbacks, s'.pcs);
    forall i ensures i in now <==> i in old' && i != info {
      Moved(s.pcs, t, s'.pcs[t], i.wrapper);
      SettledMember(s.callbacks, s.pcs, i);
      SettledMember(s.callbacks, s'.pcs, i);
    }
    assert now == old' - {info};
    DropExactly(s.held, old', info);
  }

  lemma EraseAgrees(s: Shared, t: nat)
    requires Safe(s) && Tracked(s) && Agrees(s) && Enabled(s, t, Erase)
    ensures Agrees(Act(s, t, Erase))
  {
    hide Exactly, Waiting, Leaving, FlagSafe;
    var s', cb, info := Act(s, t, Erase), s.pcs[t].cb, s.pcs[t].info;
    var old', now := Settled(s.callbacks, s.pcs), Settled(s'.callbacks, s'.pcs);
    Moved(s.pcs, t, s.pcs[t], info.wrapper);
    assert s.pcs[t := s.pcs[t]] == s.pcs;
    forall i ensures i in now <==> i in old' {
      Moved(s.pcs, t, Idle, i.wrapper);
      SettledMember(s.callbacks, s.pcs, i);
      SettledMember(s'.callbacks, s'.pcs, i);
      forall c | c in s.callbacks && s.callbacks[c] == i && i.wrapper != info.wrapper
        ensures c in s'.callbacks && s'.callbacks[c] == i
      {
      }
    }
    assert now == old';
  }

  /** Moves that touch neither the map nor the service. */
  lemma OtherAgrees(s: Shared, t: nat, a: Action)
    requires Agrees(s) && Enabled(s, t, a)
    requires a.Find? || a.Refused? || a.CasWin? || a.CasLose? || a.SubscribeOk? || a.SubscribeFail? || a.ClearFlag?
    ensures Agrees(Act(s, t, a))
  {
    hide Exactly, Waiting, Leaving;
    var s' := Act(s, t, a);
    forall i ensures i in Settled(s'.callbacks, s'.pcs) <==> i in Settled(s.callbacks, s.pcs) {
      Moved(s.pcs, t, s'.pcs[t], i.wrapper);
      SettledMember(s.callbacks, s.pcs, i);
      SettledMember(s.callbacks, s'.pcs, i);
    }
    assert Settled(s'.callbacks, s'.pcs) == Settled(s.callbacks, s.pcs);
  }

  /** One move of one thread keeps client and service in agreement exactly when it is harmless. */
  lemma MoveAgrees(s: Shared, t: nat, a: Action)
    requires Safe(s) && Tracked(s) && Agrees(s) && Enabled(s, t, a)
    ensures Agrees(Act(s, t, a)) <==> HarmlessMove(s, t, a)
  {
    hide Safe, Tracked, Agrees;
    match a
    case Insert(_, _) => InsertAgrees(s, t, a);
    case Hook => HookAgrees(s, t);
    case RollBack => RollBackAgrees(s, t);
    case Unhook => UnhookAgrees(s, t);
    case Erase => EraseAgrees(s, t);
    case _ => OtherAgrees(s, t, a);
  }

  // ---------------------------------------------------------------- schedules

  /** The state after the first `k` moves. */
  function At(threads: nat, ms: seq<Move>, k: nat): Option<Shared>
    requires k <= |ms|
  {
    Run(Start(threads), ms[..k])
  }

  lemma {:induction false} Runs(threads: nat, ms: seq<Move>, k: nat)
    requires k <= |ms| && Run(Start(threads), ms).Some?
    ensures At(threads, ms, k).Some? && Safe(At(threads, ms, k).value) && Tracked(At(threads, ms, k).value)
    ensures k < |ms| ==>
      && Enabled(At(threads, ms, k).value, ms[k].thread, ms[k].action)
      && At(threads, ms, k + 1) == Some(Act(At(threads, ms, k).value, ms[k].thread, ms[k].action))
    decreases |ms|, k
  {
    hide Safe, Tracked, Enabled, Act;
    if k < |ms| {
      var pre := ms[..|ms| - 1];
      if k < |pre| {
        Runs(threads, pre, k);
        assert pre[..k] == ms[..k] && pre[..k + 1] == ms[..k + 1];
      } else {
        assert ms[..k] == pre && ms[..k + 1] == ms;
        Runs(threads, pre, k);
        assert pre[..k] == pre;
      }
    } else {
      assert ms[..k] == ms;
      EverySchedule(threads, ms);
      if k > 0 {
        Runs(threads, ms, k - 1);
        StepTracked(At(threads, ms, k - 1).value, ms[k - 1]);
      } else {
        StartTracked(threads);
      }
    }
  }

  lemma StepTracked(s: Shared, m: Move)
    requires Safe(s) && Tracked(s) && Enabled(s, m.thread, m.action)
    ensures Tracked(Act(s, m.thread, m.action))
  {
    hide Tracked, Enabled, Act;
    TrackedStep(s, m.thread, m.action);
  }

  lemma StartTracked(threads: nat)
    ensures Tracked(Start(threads)) && Agrees(Start(threads))
  {
  }

  ghost predicate AgreesThroughout(threads: nat, ms: seq<Move>) {
    forall k :: 0 <= k <= |ms| ==> At(threads, ms, k).Some? && Agrees(At(threads, ms, k).value)
  }

  predicate HarmlessAt(threads: nat, ms: seq<Move>, k: nat)
    requires k < |ms|
  {
    && At(threads, ms, k).Some? && Enabled(At(threads, ms, k).value, ms[k].thread, ms[k].action)
    && HarmlessMove(At(threads, ms, k).value, ms[k].thread, ms[k].action)
  }

  lemma {:induction false} AgreesUpTo(threads: nat, ms: seq<Move>, k: nat)
    requires k <= |ms| && Run(Start(threads), ms).Some? && forall i :: 0 <= i < k ==> HarmlessAt(threads, ms, i)
    ensures At(threads, ms, k).Some? && Agrees(At(threads, ms, k).value)
    decreases k
  {
    hide Safe, Tracked, Agrees, Act, Enabled, HarmlessMove, Run;
    Runs(threads, ms, k);
    if k == 0 {
      assert ms[..0] == [];
      RunNone(Start(threads));
      StartTracked(threads);
    } else {
      AgreesUpTo(threads, ms, k - 1);
      Runs(threads, ms, k - 1);
      assert HarmlessAt(threads, ms, k - 1);
      MoveAgrees(At(threads, ms, k - 1).value, ms[k - 1].thread, ms[k - 1].action);
    }
  }

  /** Under any schedule of any number of threads: the service holds exactly the settled registrations at every point
      exactly when every move is harmless. */
  lemma ScheduleAgreesIff(threads: nat, ms: seq<Move>)
    requires Run(Start(threads), ms).Some?
    ensures AgreesThroughout(threads, ms) <==> forall k :: 0 <= k < |ms| ==> HarmlessAt(threads, ms, k)
  {
    hide Safe, Tracked, Agrees, Act, Enabled, HarmlessMove, Run, At;
    if forall k :: 0 <= k < |ms| ==> HarmlessAt(threads, ms, k) {
      forall k | 0 <= k <= |ms| ensures At(threads, ms, k).Some? && Agrees(At(threads, ms, k).value) {
        AgreesUpTo(threads, ms, k);
      }
    }
    if AgreesThroughout(threads, ms) {
      forall k | 0 <= k < |ms| ensures HarmlessAt(threads, ms, k) {
        Runs(threads, ms, k);
        assert Agrees(At(threads, ms, k).value) && Agrees(At(threads, ms, k + 1).value);
        MoveAgrees(At(threads, ms, k).value, ms[k].thread, ms[k].action);
      }
    }
  }

  /** When no thread is in the middle of a registration or an unregistration, this is agreement with the whole map. */
  lemma QuietAgrees(s: Shared)
    requires forall t :: 0 <= t < |s.pcs| ==> !s.pcs[t].Inserted? && !s.pcs[t].Unhooked?
    ensures Agrees(s) <==> Exactly(s.held, Since(s.callbacks, 0))
  {
    assert Settled(s.callbacks, s.pcs) == Since(s.callbacks, 0);
  }

  /** The failing family is reachable: one thread unregisters a callback while another's registration has not reached
      the service yet. The service then holds a wrapper that the client has dropped, with every thread idle. */
  lemma HookRace(cb: Callback, kind: Kind) returns (ms: seq<Move>, s: Shared)
    ensures Run(Start(2), ms) == Some(s) && s.pcs == [Idle, Idle]
    ensures s.callbacks == map[] && s.held == multiset{Info(0, kind)} && !Agrees(s)
  {
    hide Run, Settled, Exactly;
    ms, s := [], Start(2);
    assert Run(s, ms) == Some(s) by { RunNone(s); }
    ms, s := Then(Start(2), ms, s, Move(0, Insert(cb, kind)));
    ms, s := Then(Start(2), ms, s, Move(1, Find(cb)));
    ms, s := Then(Start(2), ms, s, Move(1, Unhook));
    assert s.held == multiset{};
    ms, s := Then(Start(2), ms, s, Move(1, Erase));
    assert s.callbacks == map[];
    ms, s := Then(Start(2), ms, s, Move(0, Hook));
    assert s.pcs == [Idle, Idle];
    assert s.held[Info(0, kind)] == 1;
    NothingSettled(s);
  }

  lemma NothingSettled(s: Shared)
    requires s.callbacks == map[]
    ensures Agrees(s) ==> forall i: Info :: s.held[i] == 0
  {
  }

  // ---------------------------------------------------------------- callers that wait

  /** A callback is unregistered only once its registration has returned. */
  predicate Patient(s: Shared, a: Action) {
    a.Find? && a.cb in s.callbacks ==> !Waiting(s.pcs, s.callbacks[a.cb].wrapper)
  }

  predicate PatientAt(threads: nat, ms: seq<Move>, k: nat)
    requires k < |ms|
  {
    At(threads, ms, k).Some? ==> Patient(At(threads, ms, k).value, ms[k].action)
  }

  /** This thread's entry is still there, and nobody is unregistering it. */
  predicate Undisturbed(s: Shared, pc: Pc)
    requires pc.Inserted?
  {
    && pc.cb in s.callbacks && s.callbacks[pc.cb] == pc.info
    && forall u :: 0 <= u < |s.pcs| && (s.pcs[u].Found? || s.pcs[u].Unhooked?) ==>
         s.pcs[u].info.wrapper != pc.info.wrapper
  }

  /** Whoever waits for the service is undisturbed. */
  predicate Orderly(s: Shared) {
    forall t :: 0 <= t < |s.pcs| && s.pcs[t].Inserted? ==> Undisturbed(s, s.pcs[t])
  }

  lemma OrderlyHarmless(s: Shared, t: nat, a: Action)
    requires Orderly(s) && Enabled(s, t, a)
    ensures HarmlessMove(s, t, a)
  {
  }

  /** A move of another thread leaves a waiting one undisturbed. */
  lemma OthersUndisturbed(s: Shared, t: nat, a: Action, u: nat)
    requires Orderly(s) && Tracked(s) && Enabled(s, t, a) && Patient(s, a)
    requires u < |s.pcs| && u != t && s.pcs[u].Inserted?
    ensures Undisturbed(Act(s, t, a), s.pcs[u])
  {
    hide Drop, MapSafe;
    assert Undisturbed(s, s.pcs[u]);
    if a.Find? {
      assert !Waits(s.pcs[u], s.callbacks[a.cb].wrapper);
    }
  }

  /** So does a fresh entry. */
  lemma FreshUndisturbed(s: Shared, t: nat, a: Action)
    requires Tracked(s) && Enabled(s, t, a) && a.Insert?
    ensures Undisturbed(Act(s, t, a), Act(s, t, a).pcs[t])
  {
  }

  lemma OrderlyStep(s: Shared, t: nat, a: Action)
    requires Orderly(s) && Tracked(s) && Enabled(s, t, a) && Patient(s, a)
    ensures Orderly(Act(s, t, a))
  {
    hide Drop, Undisturbed, Tracked, Patient;
    var s' := Act(s, t, a);
    forall u | 0 <= u < |s'.pcs| && s'.pcs[u].Inserted? ensures Undisturbed(s', s'.pcs[u]) {
      if u != t {
        OthersUndisturbed(s, t, a, u);
      } else {
        FreshUndisturbed(s, t, a);
      }
    }
  }

  lemma {:induction false} OrderlyUpTo(threads: nat, ms: seq<Move>, k: nat)
    requires k <= |ms| && Run(Start(threads), ms).Some? && forall i :: 0 <= i < |ms| ==> PatientAt(threads, ms, i)
    ensures At(threads, ms, k).Some? && Orderly(At(threads, ms, k).value)
    ensures k < |ms| ==> HarmlessAt(threads, ms, k)
    decreases k
  {
    hide Tracked, Orderly, Act, Enabled, HarmlessMove, Run, FlagSafe;
    Runs(threads, ms, k);
    if k == 0 {
      assert ms[..0] == [];
      RunNone(Start(threads));
      assert Orderly(Start(threads)) by { StartOrderly(threads); }
    } else {
      OrderlyUpTo(threads, ms, k - 1);
      Runs(threads, ms, k - 1);
      assert PatientAt(threads, ms, k - 1);
      OrderlyStep(At(threads, ms, k - 1).value, ms[k - 1].thread, ms[k - 1].action);
    }
    if k < |ms| {
      OrderlyHarmless(At(threads, ms, k).value, ms[k].thread, ms[k].action);
    }
  }

  lemma StartOrderly(threads: nat)
    ensures Orderly(Start(threads))
  {
  }

  /** If callbacks are unregistered only once their registration has returned, client and service agree at every point
      of every schedule of any number of threads. */
  lemma PatientAgrees(threads: nat, ms: seq<Move>)
    requires Run(Start(threads), ms).Some? && forall k :: 0 <= k < |ms| ==> PatientAt(threads, ms, k)
    ensures AgreesThroughout(threads, ms)
  {
    hide At, Run, HarmlessAt, PatientAt, AgreesThroughout;
    forall k | 0 <= k < |ms| ensures HarmlessAt(threads, ms, k) {
      OrderlyUpTo(threads, ms, k);
    }
    ScheduleAgreesIff(threads, ms);
  }
}
