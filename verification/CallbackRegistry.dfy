/** The client's registry of permission-change callbacks and what the service holds, over sequential runs of
    registrations, unregistrations, service deaths and the re-registrations that follow them. */
module CallbackRegistry {
  const MAX_CALLBACK_MAP_SIZE := 200
  const PERMS_LIST_SIZE_MAX := 1024
  const TOKENIDS_LIST_SIZE_MAX := 1024

  datatype Kind = SystemKind | SelfKind

  /** A caller's callback object, with the size of the scope it reports. */
  datatype Callback = Callback(id: nat, perms: nat, tokens: nat)

  /** The wrapper created for it, and how it was registered. */
  datatype Info = Info(wrapper: nat, kind: Kind)

  datatype Error = Ok | Exceeded | Exists | Abnormal | ParamInvalid | NotTogether | ServiceError

  /** What a call to the service comes to: not done, done but the reply is lost, or done. */
  datatype Answer = Refused | Lost | Accepted

  /** `held` is what the service has registered, which may hold a wrapper more than once; `next` numbers new
      wrappers. */
  datatype State = State(callbacks: map<Callback, Info>, held: multiset<Info>, next: nat)

  predicate ScopeFits(cb: Callback, kind: Kind) {
    && cb.perms <= PERMS_LIST_SIZE_MAX
    && match kind
       case SystemKind => cb.tokens <= TOKENIDS_LIST_SIZE_MAX
       case SelfKind => cb.tokens == 1
  }

  /** The service removes one entry of the wrapper, whatever the type it was registered with, and is content when
      there is none. */
  function Drop(held: multiset<Info>, wrapper: nat): multiset<Info> {
    if Info(wrapper, SystemKind) in held then held - multiset{Info(wrapper, SystemKind)}
    else held - multiset{Info(wrapper, SelfKind)}
  }

  datatype Result = Result(state: State, error: Error)

  /** Whether a registration gets as far as the service. */
  predicate AsksService(s: State, cb: Callback, kind: Kind, proxyOk: bool) {
    |s.callbacks| != MAX_CALLBACK_MAP_SIZE && cb !in s.callbacks && proxyOk && ScopeFits(cb, kind)
  }

  /** Registers; every failure after the entry was made takes it out again. */
  function Register(s: State, cb: Callback, kind: Kind, proxyOk: bool, answer: Answer): Result {
    if |s.callbacks| == MAX_CALLBACK_MAP_SIZE then Result(s, Exceeded)
    else if cb in s.callbacks then Result(s, Exists)
    else
      var info := Info(s.next, kind);
      var rolledBack := s.(next := s.next + 1);
      if !proxyOk then Result(rolledBack, Abnormal)
      else if !ScopeFits(cb, kind) then Result(rolledBack, ParamInvalid)
      else match answer
        case Refused => Result(rolledBack, ServiceError)
        case Lost => Result(rolledBack.(held := s.held + multiset{info}), ServiceError)
        case Accepted => Result(State(s.callbacks[cb := info], s.held + multiset{info}, s.next + 1), Ok)
  }

  /** The type only selects the service call; both remove by wrapper. */
  function Unregister(s: State, cb: Callback, proxyOk: bool, answer: Answer): Result {
    if !proxyOk then Result(s, Abnormal)
    else if cb !in s.callbacks then Result(s, NotTogether)
    else
      var dropped := s.(held := Drop(s.held, s.callbacks[cb].wrapper));
      match answer
      case Refused => Result(s, ServiceError)
      case Lost => Result(dropped, ServiceError)
      case Accepted => Result(dropped.(callbacks := s.callbacks - {cb}), Ok)
  }

  /** The entries that a re-registration gets through; the answers themselves are ignored. */
  function Again(m: map<Callback, Info>, again: Callback -> Answer): set<Info> {
    set cb | cb in m && again(cb) != Refused :: m[cb]
  }

  /** The service is back and every known callback is registered again, on top of what the service holds by then. */
  function Reregister(s: State, proxyOk: bool, again: Callback -> Answer): State {
    if proxyOk then s.(held := s.held + multiset(Again(s.callbacks, again))) else s
  }

  datatype Event =
    | Reg(cb: Callback, kind: Kind, proxyOk: bool, answer: Answer)
    | Unreg(cb: Callback, kind: Kind, proxyOk: bool, answer: Answer)
    | Died
    | SaAdded(proxyOk: bool, again: Callback -> Answer)

  function Step(s: State, e: Event): State {
    match e
    case Reg(cb, kind, proxyOk, answer) => Register(s, cb, kind, proxyOk, answer).state
    case Unreg(cb, _, proxyOk, answer) => Unregister(s, cb, proxyOk, answer).state
    case Died => s.(held := multiset{})
    case SaAdded(proxyOk, again) => Reregister(s, proxyOk, again)
  }

  function After(s: State, evs: seq<Event>): State {
    if evs == [] then s else Step(After(s, evs[..|evs| - 1]), evs[|evs| - 1])
  }

  const EMPTY := State(map[], multiset{}, 0)

  // ---------------------------------------------------------------- client and service agree

  /** No wrapper stands for two callbacks. */
  predicate Injective(m: map<Callback, Info>) {
    forall cb, cb' :: cb in m && cb' in m && cb != cb' ==> m[cb].wrapper != m[cb'].wrapper
  }

  predicate Below(m: map<Callback, Info>, next: nat) {
    forall cb :: cb in m ==> m[cb].wrapper < next
  }

  predicate Numbered(s: State) {
    |s.callbacks| <= MAX_CALLBACK_MAP_SIZE && Injective(s.callbacks) && Below(s.callbacks, s.next)
  }

  /** The wrappers created from number `mark` on that are still registered at the client. */
  function Since(m: map<Callback, Info>, mark: nat): set<Info> {
    set cb | cb in m && m[cb].wrapper >= mark :: m[cb]
  }

  /** Each member once and nothing else. */
  ghost predicate Exactly(held: multiset<Info>, infos: set<Info>) {
    forall i: Info :: held[i] == if i in infos then 1 else 0
  }

  /** The service holds exactly the wrappers created since `mark`, each once and with its type. */
  ghost predicate HoldsSince(s: State, mark: nat) {
    Exactly(s.held, Since(s.callbacks, mark))
  }

  /** The service holds exactly the wrappers in the client's map, each once and with its type. */
  ghost predicate InSync(s: State) {
    HoldsSince(s, 0)
  }

  lemma ValuesAfterAdd(m: map<Callback, Info>, cb: Callback, info: Info)
    requires cb !in m
    ensures m[cb := info].Values == m.Values + {info} && |m[cb := info]| == |m| + 1
  {
    var m' := m[cb := info];
    forall i | i in m.Values ensures i in m'.Values {
      var c :| c in m && m[c] == i;
      assert c in m' && m'[c] == i;
    }
    assert m'[cb] == info;
    assert m'.Keys == m.Keys + {cb};
  }

  lemma ValuesAfterRemove(m: map<Callback, Info>, cb: Callback)
    requires cb in m && Injective(m)
    ensures (m - {cb}).Values == m.Values - {m[cb]} && |m - {cb}| <= |m|
  {
    var m' := m - {cb};
    forall i | i in m.Values && i != m[cb] ensures i in m'.Values {
      var c :| c in m && m[c] == i;
      assert c in m' && m'[c] == i;
    }
    assert m'.Keys == m.Keys - {cb};
  }

  lemma AddKeepsNumbers(m: map<Callback, Info>, next: nat, cb: Callback, kind: Kind)
    requires Injective(m) && Below(m, next) && cb !in m
    ensures var m' := m[cb := Info(next, kind)]; Injective(m') && Below(m', next + 1)
    ensures Below(m, next + 1)
  {
  }

  lemma RemoveKeepsNumbers(m: map<Callback, Info>, next: nat, cb: Callback)
    requires Injective(m) && Below(m, next)
    ensures Injective(m - {cb}) && Below(m - {cb}, next)
  {
  }

  // ---------------------------------------------------------------- one step

  /** Where the wrappers that the service holds begin: a death starts a new count, a repair ends it. */
  function NextMark(s: State, mark: nat, e: Event): nat {
    match e
    case Died => s.next
    case SaAdded(proxyOk, _) => if proxyOk then 0 else mark
    case _ => mark
  }

  /** A registration must not be done with its reply lost, nor an unregistration of a wrapper the service holds; and
      re-registration must get through for exactly the callbacks registered before the last death. */
  predicate Harmless(s: State, mark: nat, e: Event) {
    match e
    case Reg(cb, kind, proxyOk, answer) => !(AsksService(s, cb, kind, proxyOk) && answer.Lost?)
    case Unreg(cb, _, proxyOk, answer) =>
      !(proxyOk && cb in s.callbacks && answer.Lost? && s.callbacks[cb].wrapper >= mark)
    case Died => true
    case SaAdded(proxyOk, again) =>
      proxyOk ==> forall cb :: cb in s.callbacks ==> (again(cb) != Refused <==> s.callbacks[cb].wrapper < mark)
  }

  lemma SinceMember(m: map<Callback, Info>, mark: nat, cb: Callback, i: Info)
    requires cb in m && Injective(m) && i.wrapper == m[cb].wrapper
    ensures i in Since(m, mark) <==> i == m[cb] && i.wrapper >= mark
  {
  }

  lemma SinceAdd(m: map<Callback, Info>, mark: nat, cb: Callback, info: Info)
    requires cb !in m && info.wrapper >= mark
    ensures Since(m[cb := info], mark) == Since(m, mark) + {info}
  {
    var m' := m[cb := info];
    forall i | i in Since(m, mark) ensures i in Since(m', mark) {
      var c :| c in m && m[c].wrapper >= mark && m[c] == i;
      assert c in m' && m'[c] == i;
    }
    assert m'[cb] == info;
  }

  lemma SinceRemove(m: map<Callback, Info>, mark: nat, cb: Callback)
    requires cb in m && Injective(m)
    ensures Since(m - {cb}, mark) == Since(m, mark) - {m[cb]}
  {
    var m' := m - {cb};
    forall i | i in Since(m, mark) && i != m[cb] ensures i in Since(m', mark) {
      var c :| c in m && m[c].wrapper >= mark && m[c] == i;
      assert c in m' && m'[c] == i;
    }
  }

  lemma NewNotSince(m: map<Callback, Info>, mark: nat, next: nat, kind: Kind)
    requires Below(m, next)
    ensures Info(next, kind) !in Since(m, mark) && Since(m, next) == {}
  {
  }

  lemma ExactlyAdd(held: multiset<Info>, infos: set<Info>, info: Info)
    requires Exactly(held, infos) && info !in infos
    ensures Exactly(held + multiset{info}, infos + {info}) && !Exactly(held + multiset{info}, infos)
  {
    assert (held + multiset{info})[info] == 1;
  }

  lemma RegNumbers(s: State, e: Event)
    requires e.Reg? && Numbered(s)
    ensures Numbered(Step(s, e))
  {
    hide Injective, Below, ScopeFits;
    if e.cb !in s.callbacks {
      AddKeepsNumbers(s.callbacks, s.next, e.cb, e.kind);
      ValuesAfterAdd(s.callbacks, e.cb, Info(s.next, e.kind));
    }
  }

  /** A registration, whatever fails, keeps agreement, unless it was done and its reply is lost. */
  lemma RegStep(s: State, mark: nat, e: Event)
    requires e.Reg? && Numbered(s) && HoldsSince(s, mark) && mark <= s.next
    ensures HoldsSince(Step(s, e), mark) <==> Harmless(s, mark, e)
  {
    hide Injective, Below, ScopeFits, Since, Exactly;
    var info, since := Info(s.next, e.kind), Since(s.callbacks, mark);
    NewNotSince(s.callbacks, mark, s.next, e.kind);
    ExactlyAdd(s.held, since, info);
    if AsksService(s, e.cb, e.kind, e.proxyOk) {
      SinceAdd(s.callbacks, mark, e.cb, info);
    } else {
      assert Step(s, e).held == s.held && Step(s, e).callbacks == s.callbacks;
    }
  }

  /** Dropping by wrapper number drops exactly the one entry that has it, whatever its type. */
  lemma DropExactly(held: multiset<Info>, infos: set<Info>, info: Info)
    requires Exactly(held, infos) && forall i :: i in infos && i.wrapper == info.wrapper ==> i == info
    ensures Exactly(Drop(held, info.wrapper), infos - {info})
  {
    var system, self := Info(info.wrapper, SystemKind), Info(info.wrapper, SelfKind);
    assert info == system || info == self by {
      match info.kind
      case SystemKind =>
      case SelfKind =>
    }
    assert forall i: Info :: held[i] == if i in infos then 1 else 0;
    if system in held {
      assert held[system] == 1 && system == info;
    } else if self in held {
      assert held[self] == 1 && self == info;
    } else {
      assert held[system] == 0 && held[self] == 0;
      assert held - multiset{self} == held;
    }
  }

  /** So an unregistration drops exactly the client's entry, if the service holds it. */
  lemma DropIs(s: State, mark: nat, cb: Callback)
    requires Numbered(s) && HoldsSince(s, mark) && cb in s.callbacks
    ensures Exactly(Drop(s.held, s.callbacks[cb].wrapper), Since(s.callbacks, mark) - {s.callbacks[cb]})
  {
    hide Since, Drop, Exactly;
    var info, since := s.callbacks[cb], Since(s.callbacks, mark);
    forall i | i in since && i.wrapper == info.wrapper ensures i == info {
      SinceMember(s.callbacks, mark, cb, i);
    }
    DropExactly(s.held, since, info);
  }

  lemma LessOne(held: multiset<Info>, infos: set<Info>, info: Info)
    ensures Exactly(held, infos - {info}) ==> (Exactly(held, infos) <==> info !in infos)
  {
    if Exactly(held, infos - {info}) {
      assert held[info] == 0;
      assert info !in infos ==> infos - {info} == infos;
    }
  }

  /** An unregistration of either type keeps agreement, unless its reply is lost. */
  lemma UnregStep(s: State, mark: nat, e: Event)
    requires e.Unreg? && Numbered(s) && HoldsSince(s, mark)
    ensures Numbered(Step(s, e)) && (HoldsSince(Step(s, e), mark) <==> Harmless(s, mark, e))
  {
    hide Injective, Below, Since, Drop, Exactly;
    if e.cb in s.callbacks {
      LessOne(Drop(s.held, s.callbacks[e.cb].wrapper), Since(s.callbacks, mark), s.callbacks[e.cb]);
      DropIs(s, mark, e.cb);
      SinceRemove(s.callbacks, mark, e.cb);
      SinceMember(s.callbacks, mark, e.cb, s.callbacks[e.cb]);
      RemoveKeepsNumbers(s.callbacks, s.next, e.cb);
      ValuesAfterRemove(s.callbacks, e.cb);
    }
  }

  lemma AgainMember(m: map<Callback, Info>, again: Callback -> Answer, cb: Callback)
    requires cb in m && Injective(m)
    ensures m[cb] in Again(m, again) <==> again(cb) != Refused
  {
  }

  /** A re-registration leaves the service in agreement with the whole map exactly when it gets through for the
      callbacks from before the death and for no other. */
  lemma SaAddedStep(s: State, mark: nat, e: Event)
    requires e.SaAdded? && e.proxyOk && Numbered(s) && HoldsSince(s, mark)
    ensures InSync(Step(s, e)) <==> Harmless(s, mark, e)
  {
    hide Injective, Below;
    var m, held := s.callbacks, Step(s, e).held;
    forall cb | cb in m
      ensures m[cb] in Since(m, 0)
      ensures held[m[cb]] == (if m[cb].wrapper >= mark then 1 else 0) + (if e.again(cb) != Refused then 1 else 0)
    {
      AgainMember(m, e.again, cb);
      SinceMember(m, mark, cb, m[cb]);
    }
    forall i: Info | i !in Since(m, 0) ensures held[i] == 0 {
    }
  }

  /** One step keeps the service at exactly the wrappers created since the last unrepaired death, exactly when it is
      harmless. */
  lemma StepSync(s: State, mark: nat, e: Event)
    requires Numbered(s) && HoldsSince(s, mark) && mark <= s.next
    ensures Numbered(Step(s, e)) && NextMark(s, mark, e) <= Step(s, e).next
    ensures HoldsSince(Step(s, e), NextMark(s, mark, e)) <==> Harmless(s, mark, e)
  {
    hide Since, Injective, Drop, ScopeFits;
    match e
    case Reg(_, _, _, _) => RegNumbers(s, e); RegStep(s, mark, e);
    case Unreg(_, _, _, _) => UnregStep(s, mark, e);
    case Died => NewNotSince(s.callbacks, mark, s.next, SystemKind);
    case SaAdded(proxyOk, _) => if proxyOk { SaAddedStep(s, mark, e); }
  }

  // ---------------------------------------------------------------- runs

  /** Where the wrappers that the service holds begin after a run. */
  function MarkAfter(s: State, evs: seq<Event>): nat {
    if evs == [] then 0
    else
      var pre := evs[..|evs| - 1];
      NextMark(After(s, pre), MarkAfter(s, pre), evs[|evs| - 1])
  }

  ghost predicate HoldsThroughout(evs: seq<Event>) {
    forall k :: 0 <= k <= |evs| ==> HoldsSince(After(EMPTY, evs[..k]), MarkAfter(EMPTY, evs[..k]))
  }

  predicate AllHarmless(evs: seq<Event>) {
    forall i :: 0 <= i < |evs| ==> Harmless(After(EMPTY, evs[..i]), MarkAfter(EMPTY, evs[..i]), evs[i])
  }

  lemma {:induction false} AlwaysNumbered(evs: seq<Event>, k: nat)
    requires k <= |evs|
    requires forall i :: 0 <= i < k ==> Harmless(After(EMPTY, evs[..i]), MarkAfter(EMPTY, evs[..i]), evs[i])
    ensures var s, mark := After(EMPTY, evs[..k]), MarkAfter(EMPTY, evs[..k]);
      Numbered(s) && mark <= s.next && HoldsSince(s, mark)
    decreases k
  {
    hide Numbered, HoldsSince, Harmless, Step, NextMark;
    if k == 0 {
      assert Numbered(EMPTY) && HoldsSince(EMPTY, 0) by { EmptyHolds(); }
    } else {
      AlwaysNumbered(evs, k - 1);
      assert evs[..k][..k - 1] == evs[..k - 1];
      StepSync(After(EMPTY, evs[..k - 1]), MarkAfter(EMPTY, evs[..k - 1]), evs[k - 1]);
    }
  }

  lemma EmptyHolds()
    ensures Numbered(EMPTY) && HoldsSince(EMPTY, 0)
  {
  }

  /** Over every run of registrations, unregistrations of either type, deaths and re-registrations: at every point the
      service holds exactly the client's wrappers created since the last unrepaired death, each once and with its
      type, exactly when every step is harmless. */
  lemma RunSync(evs: seq<Event>)
    ensures HoldsThroughout(evs) <==> AllHarmless(evs)
  {
    hide HoldsSince, Harmless, Step, NextMark;
    if AllHarmless(evs) {
      forall k | 0 <= k <= |evs| ensures HoldsSince(After(EMPTY, evs[..k]), MarkAfter(EMPTY, evs[..k])) {
        AlwaysNumbered(evs, k);
      }
    }
    if HoldsThroughout(evs) {
      HarmlessUpTo(evs, |evs|);
    }
  }

  lemma {:induction false} RunLast(evs: seq<Event>)
    requires evs != []
    ensures var pre, e := evs[..|evs| - 1], evs[|evs| - 1];
      && After(EMPTY, evs) == Step(After(EMPTY, pre), e)
      && MarkAfter(EMPTY, evs) == NextMark(After(EMPTY, pre), MarkAfter(EMPTY, pre), e)
  {
  }

  lemma {:induction false} HarmlessUpTo(evs: seq<Event>, k: nat)
    requires HoldsThroughout(evs) && k <= |evs|
    ensures forall i :: 0 <= i < k ==> Harmless(After(EMPTY, evs[..i]), MarkAfter(EMPTY, evs[..i]), evs[i])
    decreases k
  {
    hide HoldsSince, Harmless, Step, NextMark, Numbered, After, MarkAfter;
    if k > 0 {
      HarmlessUpTo(evs, k - 1);
      AlwaysNumbered(evs, k - 1);
      assert evs[..k][..k - 1] == evs[..k - 1];
      assert HoldsSince(After(EMPTY, evs[..k]), MarkAfter(EMPTY, evs[..k]));
      RunLast(evs[..k]);
      StepSync(After(EMPTY, evs[..k - 1]), MarkAfter(EMPTY, evs[..k - 1]), evs[k - 1]);
    }
  }

  /** After such a run the service agrees with the whole map exactly when no callback is left from before the last
      unrepaired death, and the map has at most 200 entries. */
  lemma AgreesIff(evs: seq<Event>)
    requires AllHarmless(evs)
    ensures var s, mark := After(EMPTY, evs), MarkAfter(EMPTY, evs);
      && (InSync(s) <==> forall cb :: cb in s.callbacks ==> s.callbacks[cb].wrapper >= mark)
      && |s.callbacks| <= MAX_CALLBACK_MAP_SIZE
  {
    hide Harmless, Step, After, MarkAfter;
    assert evs[..|evs|] == evs;
    AlwaysNumbered(evs, |evs|);
    var s, mark := After(EMPTY, evs), MarkAfter(EMPTY, evs);
    forall cb | cb in s.callbacks ensures s.callbacks[cb] in Since(s.callbacks, 0) {
      SinceMember(s.callbacks, 0, cb, s.callbacks[cb]);
    }
    forall cb | cb in s.callbacks ensures s.callbacks[cb].wrapper >= mark <==> s.held[s.callbacks[cb]] == 1 {
      SinceMember(s.callbacks, mark, cb, s.callbacks[cb]);
    }
    if forall cb :: cb in s.callbacks ==> s.callbacks[cb].wrapper >= mark {
      assert Since(s.callbacks, 0) == Since(s.callbacks, mark);
    }
  }

  lemma {:induction false} AfterThen(s: State, evs: seq<Event>, e: Event)
    ensures After(s, evs + [e]) == Step(After(s, evs), e)
  {
    assert (evs + [e])[..|evs|] == evs;
  }

  /** A callback registered between the death of the service and the notification that it is back is registered
      twice; unregistering it leaves the service with a wrapper that the client has dropped. */
  lemma RegisteredTwice(cb: Callback, kind: Kind, again: Callback -> Answer)
    requires ScopeFits(cb, kind) && again(cb) == Accepted
    ensures var s1 := After(EMPTY, [Died, Reg(cb, kind, true, Accepted), SaAdded(true, again)]);
      var s2 := Step(s1, Unreg(cb, kind, true, Accepted));
      && s1.callbacks == map[cb := Info(0, kind)] && s1.held == multiset{Info(0, kind), Info(0, kind)}
      && s2.callbacks == map[] && s2.held == multiset{Info(0, kind)} && !InSync(s1) && !InSync(s2)
  {
    hide ScopeFits;
    var died, reg, back := Died, Reg(cb, kind, true, Accepted), SaAdded(true, again);
    var info := Info(0, kind);
    AfterThen(EMPTY, [], died);
    AfterThen(EMPTY, [died], reg);
    AfterThen(EMPTY, [died, reg], back);
    assert [] + [died] == [died] && [died] + [reg] == [died, reg] && [died, reg] + [back] == [died, reg, back];
    var b := After(EMPTY, [died, reg]);
    assert b == State(map[cb := info], multiset{info}, 1);
    assert Again(b.callbacks, again) == {info};
    var s1 := After(EMPTY, [died, reg, back]);
    assert s1.held == multiset{info, info};
    assert s1.held[info] == 2;
    var s2 := Step(s1, Unreg(cb, kind, true, Accepted));
    assert s2.held[info] == 1 && s2.callbacks == map[];
    assert info !in Since(s2.callbacks, 0);
  }

  // ---------------------------------------------------------------- the client as a program

  class Client {
    var callbacks: map<Callback, Info>
    var held: multiset<Info>
    var next: nat

    function Now(): State
      reads this
    {
      State(callbacks, held, next)
    }

    constructor ()
      ensures Now() == EMPTY
    {
      callbacks, held, next := map[], multiset{}, 0;
    }

    method CreatePermStateChangeCallback(cb: Callback, kind: Kind) returns (error: Error, info: Info)
      modifies this`callbacks, this`next
      ensures error == if |old(callbacks)| == MAX_CALLBACK_MAP_SIZE then Exceeded
                       else if cb in old(callbacks) then Exists else Ok
      ensures error != Ok ==> callbacks == old(callbacks) && next == old(next)
      ensures error == Ok ==>
        info == Info(old(next), kind) && callbacks == old(callbacks)[cb := info] && next == old(next) + 1
    {
      info := Info(next, kind);
      if |callbacks| == MAX_CALLBACK_MAP_SIZE {
        return Exceeded, info;
      }
      if cb in callbacks {
        return Exists, info;
      }
      next := next + 1;
      callbacks := callbacks[cb := info];
      return Ok, info;
    }

    /** The service's side of a registration: it adds the wrapper, even if it already has it. */
    method AddCallback(info: Info, answer: Answer) returns (ok: bool)
      modifies this`held
      ensures held == if answer.Refused? then old(held) else old(held) + multiset{info}
      ensures ok <==> answer.Accepted?
    {
      if answer != Refused {
        held := held + multiset{info};
      }
      return answer == Accepted;
    }

    /** The service's side of an unregistration: it removes one entry of the wrapper, if there is one. */
    method RemoveCallback(wrapper: nat, answer: Answer) returns (ok: bool)
      modifies this`held
      ensures held == if answer.Refused? then old(held) else Drop(old(held), wrapper)
      ensures ok <==> answer.Accepted?
    {
      if answer != Refused {
        held := Drop(held, wrapper);
      }
      return answer == Accepted;
    }

    method Forget(cb: Callback)
      modifies this`callbacks
      ensures callbacks == old(callbacks) - {cb}
    {
      callbacks := callbacks - {cb};
    }

    /** The part of a registration after the entry was made. */
    method CompleteRegistration(cb: Callback, info: Info, proxyOk: bool, answer: Answer) returns (error: Error)
      modifies this`callbacks, this`held
      ensures error == if !proxyOk then Abnormal else if !ScopeFits(cb, info.kind) then ParamInvalid
                       else if answer.Accepted? then Ok else ServiceError
      ensures callbacks == if error == Ok then old(callbacks) else old(callbacks) - {cb}
      ensures held == if proxyOk && ScopeFits(cb, info.kind) && !answer.Refused? then old(held) + multiset{info}
                      else old(held)
    {
      if !proxyOk {
        Forget(cb);
        return Abnormal;
      }
      if cb.perms > PERMS_LIST_SIZE_MAX {
        Forget(cb);
        return ParamInvalid;
      }
      if info.kind == SystemKind && cb.tokens > TOKENIDS_LIST_SIZE_MAX {
        Forget(cb);
        return ParamInvalid;
      }
      if info.kind == SelfKind && cb.tokens != 1 {
        Forget(cb);
        return ParamInvalid;
      }
      var ok := AddCallback(info, answer);
      if !ok {
        Forget(cb);
        return ServiceError;
      }
      return Ok;
    }

    method RegisterPermStateChangeCallback(cb: Callback, kind: Kind, proxyOk: bool, answer: Answer)
      returns (error: Error)
      modifies this
      ensures Result(Now(), error) == Register(old(Now()), cb, kind, proxyOk, answer)
    {
      hide ScopeFits, Register;
      RegisterParts(Now(), cb, kind, proxyOk, answer);
      var info;
      ghost var before := callbacks;
      error, info := CreatePermStateChangeCallback(cb, kind);
      if error != Ok {
        return;
      }
      PutBack(before, cb, info);
      error := CompleteRegistration(cb, info, proxyOk, answer);
      assert error != Ok ==> callbacks == before;
    }

    method UnRegisterPermStateChangeCallback(cb: Callback, kind: Kind, proxyOk: bool, answer: Answer)
      returns (error: Error)
      modifies this
      ensures Now() == Step(old(Now()), Unreg(cb, kind, proxyOk, answer))
      ensures error == Unregister(old(Now()), cb, proxyOk, answer).error
    {
      hide Drop;
      if !proxyOk {
        return Abnormal;
      }
      if cb !in callbacks {
        return NotTogether;
      }
      var info := callbacks[cb];
      var ok := RemoveCallback(info.wrapper, answer);
      if !ok {
        return ServiceError;
      }
      if cb in callbacks && callbacks[cb].wrapper == info.wrapper {
        callbacks := callbacks - {cb};
      }
      return Ok;
    }

    /** Walks a snapshot of the map and registers every entry again, on top of what the service already holds. */
    method ReregisterPermStateChangeCallback(proxyOk: bool, again: Callback -> Answer)
      requires Injective(callbacks)
      modifies this`held
      ensures Now() == Reregister(old(Now()), proxyOk, again)
    {
      hide Again;
      if !proxyOk {
        return;
      }
      ghost var m := callbacks;
      var todo := callbacks.Keys;
      ghost var done: map<Callback, Info> := map[];
      NoneAgain(again);
      while todo != {}
        invariant todo <= m.Keys && callbacks == m
        invariant done == map cb | cb in m && cb !in todo :: m[cb]
        invariant held == old(held) + multiset(Again(done, again))
        decreases todo
      {
        var cb :| cb in todo;
        AgainAdd(done, again, cb, m[cb]);
        var ok := AddCallback(callbacks[cb], again(cb));
        todo := todo - {cb};
        done := done[cb := m[cb]];
      }
      assert done == m;
    }
  }

  /** A registration field by field. */
  lemma RegisterParts(s: State, cb: Callback, kind: Kind, proxyOk: bool, answer: Answer)
    ensures var r := Register(s, cb, kind, proxyOk, answer);
      if |s.callbacks| == MAX_CALLBACK_MAP_SIZE then r == Result(s, Exceeded)
      else if cb in s.callbacks then r == Result(s, Exists)
      else
        && r.error == (if !proxyOk then Abnormal else if !ScopeFits(cb, kind) then ParamInvalid
                       else if answer.Accepted? then Ok else ServiceError)
        && r.state.callbacks == (if r.error == Ok then s.callbacks[cb := Info(s.next, kind)] else s.callbacks)
        && r.state.held == (if AsksService(s, cb, kind, proxyOk) && !answer.Refused?
                            then s.held + multiset{Info(s.next, kind)} else s.held)
        && r.state.next == s.next + 1
  {
    hide ScopeFits;
  }

  lemma PutBack(m: map<Callback, Info>, cb: Callback, info: Info)
    ensures cb !in m ==> m[cb := info] - {cb} == m
  {
  }

  lemma NoneAgain(again: Callback -> Answer)
    ensures Again(map[], again) == {}
  {
  }

  lemma AgainAdd(m: map<Callback, Info>, again: Callback -> Answer, cb: Callback, info: Info)
    requires cb !in m && forall c :: c in m ==> m[c] != info
    ensures multiset(Again(m[cb := info], again)) ==
      if again(cb) == Refused then multiset(Again(m, again)) else multiset(Again(m, again)) + multiset{info}
  {
    var m' := m[cb := info];
    forall i | i in Again(m, again) ensures i in Again(m', again) {
      var c :| c in m && again(c) != Refused && m[c] == i;
      assert c in m' && m'[c] == i;
    }
    assert m'[cb] == info;
    assert info !in Again(m, again);
    assert Again(m', again) == Again(m, again) + if again(cb) == Refused then {} else {info};
  }

  // ---------------------------------------------------------------- the answers

  /** A registration is refused at 200 callbacks, for a known callback, without a proxy, for more than 1024 permissions,
      for more than 1024 tokens (any system registration) or other than one token (a self registration), and when the
      service does not answer that it accepted; in this order, and otherwise succeeds. */
  lemma RegisterAnswers(s: State, cb: Callback, kind: Kind, proxyOk: bool, answer: Answer)
    ensures Register(s, cb, kind, proxyOk, answer).error ==
      if |s.callbacks| == 200 then Exceeded
      else if cb in s.callbacks then Exists
      else if !proxyOk then Abnormal
      else if cb.perms > 1024 || (kind == SystemKind && cb.tokens > 1024) || (kind == SelfKind && cb.tokens != 1)
      then ParamInvalid
      else if answer == Accepted then Ok else ServiceError
  {
  }

  /** Only a successful registration adds to the map, and only this callback. */
  lemma RegisterKeepsOthers(s: State, cb: Callback, kind: Kind, proxyOk: bool, answer: Answer)
    ensures var r := Register(s, cb, kind, proxyOk, answer);
      && (r.error != Ok ==> r.state.callbacks == s.callbacks)
      && (r.error == Ok ==> cb !in s.callbacks && cb in r.state.callbacks && r.state.callbacks[cb].kind == kind
                            && r.state.callbacks - {cb} == s.callbacks)
  {
    RegisterParts(s, cb, kind, proxyOk, answer);
    PutBack(s.callbacks, cb, Info(s.next, kind));
    hide Register;
  }

  /** An unregistration fails without a proxy, for an unknown callback, and when the service does not answer that it
      accepted; only a successful one takes the callback, and no other, out of the map. */
  lemma UnregisterAnswers(s: State, cb: Callback, proxyOk: bool, answer: Answer)
    ensures var r := Unregister(s, cb, proxyOk, answer);
      && r.error == (if !proxyOk then Abnormal else if cb !in s.callbacks then NotTogether
                     else if answer == Accepted then Ok else ServiceError)
      && r.state.callbacks == (if r.error == Ok then s.callbacks - {cb} else s.callbacks)
  {
    hide Drop;
  }
}
