/** A call that stops between any two of its file-system changes leaves a disk that some complete call, with other
    steps failing, would have left as well. */
module RegistryCrash {
  import opened TokenJson
  import opened TokenRegistry

  lemma DiskAfterBoth(d: Disk, a: seq<Disk>, b: seq<Disk>, k: nat)
    ensures DiskAfter(d, a + b, k) ==
      if k <= |a| then DiskAfter(d, a, k) else DiskAfter(DiskAfter(d, a, |a|), b, k - |a|)
  {
  }

  /** How far a write with outcome `o` is after `k` of its steps. */
  function CutOutcome(o: Outcome, k: nat): Outcome {
    if k == 0 then Failed else if k == 1 && o.Both? then MainOnly else o
  }

  lemma WriteCut(d: Disk, v: Json, o: Outcome, k: nat)
    ensures DiskAfter(d, WriteSteps(d, v, o), k) == Commit(d, v, CutOutcome(o, k))
  {
  }

  /** Faults that keep the same answers about reading. */
  predicate ReadsAlike(f: ReadFaults, f': ReadFaults) {
    f'.mainReadOk == f.mainReadOk && f'.bakReadOk == f.bakReadOk
  }

  lemma ReadCut(d: Disk, f: ReadFaults, k: nat) returns (f': ReadFaults)
    ensures ReadsAlike(f, f')
    ensures var r, r' := ReadAndParse(d, f), ReadAndParse(d, f');
      r'.ok == r.ok && r'.record == r.record && r'.disk == DiskAfter(d, ReadSteps(d, f), k)
    ensures k >= |ReadSteps(d, f)| ==> f' == f
  {
    var removed := |RemoveSteps(d, f.removeOk)|;
    if !FallsBack(d, f) || k >= |ReadSteps(d, f)| {
      f' := f;
    } else if k < removed {
      f' := f.(removeOk := false, restore := Failed);
    } else {
      f' := f.(restore := CutOutcome(f.restore, k - removed));
    }
    if FallsBack(d, f) {
      var d1 := d.(main := RemoveInvalid(d.main, f.removeOk));
      DiskAfterBoth(d, RemoveSteps(d, f.removeOk), WriteSteps(d1, d.bak.v, f.restore), k);
      WriteCut(d1, d.bak.v, f.restore, k - if k < removed then k else removed);
    }
  }

  lemma ClearCut(d: Disk, f: InitFaults, k: nat) returns (f': InitFaults)
    ensures f'.read == f.read
    ensures ClearOrCreate(d, f') == ClearResult(false, DiskAfter(d, ClearSteps(d, f), k))
  {
    var removed := |RemoveSteps(d, f.removeOk)|;
    var dropped := removed + if f.bakRemoveOk then 1 else 0;
    f' := InitFaults(f.read, f.removeOk && (k >= removed), f.bakRemoveOk && k >= dropped,
                     f.openOk && k > dropped, false);
    if k > dropped {
      assert DiskAfter(d, ClearSteps(d, f), k) == ClearOrCreate(d, f').disk;
    }
  }

  /** Faults under which an initialised process changes no file. */
  function Quieted(f: CallFaults): CallFaults {
    f.(rands := [], read := f.read.(bakReadOk := false), write := Failed)
  }

  lemma QuietKeepsDisk(s: Proc, p: Params, f: CallFaults)
    ensures CallReady(s, p, Quieted(f)).proc.disk == s.disk
  {
    hide CheckProcessInfo, UpdateGoal, EncodeNode, WithChildren;
    assert CreateId(s.list, p.name, []) == INVALID_TOKEN_ID;
  }

  lemma SaveCut(d: Disk, n: TokenNode, rf: ReadFaults, w: Outcome, k: nat) returns (rf': ReadFaults, w': Outcome)
    ensures ReadsAlike(rf, rf') && Save(d, n, rf', w').disk == DiskAfter(d, SaveSteps(d, n, rf, w), k)
  {
    hide EncodeNode, Append, ReadSteps, ReadAndParse;
    rf' := ReadCut(d, rf, k);
    var r := ReadAndParse(d, rf);
    var read := ReadSteps(d, rf);
    var whole := ReadCut(d, rf, |read|);
    w' := if k <= |read| then Failed else CutOutcome(w, k - |read|);
    var v := Append(Base(r), EncodeNode(n));
    WriteCut(r.disk, v, w, if k <= |read| then 0 else k - |read|);
    DiskAfterBoth(d, read, if r.record.None? && !r.ok then [] else WriteSteps(r.disk, v, w), k);
  }

  lemma UpdateCut(d: Disk, n: TokenNode, rf: ReadFaults, w: Outcome, k: nat) returns (rf': ReadFaults, w': Outcome)
    ensures ReadsAlike(rf, rf') && Update(d, n, rf', w').disk == DiskAfter(d, UpdateSteps(d, n, rf, w), k)
  {
    hide UpdateGoal, WithChildren, ReadSteps, ReadAndParse;
    rf' := ReadCut(d, rf, k);
    var r := ReadAndParse(d, rf);
    var read := ReadSteps(d, rf);
    var whole := ReadCut(d, rf, |read|);
    w' := if k <= |read| then Failed else CutOutcome(w, k - |read|);
    GoalKeepsLength(Children(Base(r)), n);
    var goal := UpdateGoal(Children(Base(r)), n);
    if (r.record.None? && !r.ok) || goal.None? {
      DiskAfterBoth(d, read, [], k);
    } else {
      var v := WithChildren(Base(r), goal.value);
      WriteCut(r.disk, v, w, if k <= |read| then 0 else k - |read|);
      DiskAfterBoth(d, read, WriteSteps(r.disk, v, w), k);
    }
  }

  lemma GoalKeepsLength(items: seq<Json>, n: TokenNode)
    ensures UpdateGoal(items, n).Some? ==> |UpdateGoal(items, n).value| == |items|
  {
  }

  lemma ReadyCut(s: Proc, p: Params, f: CallFaults, k: nat) returns (f': CallFaults)
    ensures f'.lockOk == f.lockOk && f'.init == f.init && ReadsAlike(f.read, f'.read)
    ensures CallReady(s, p, f').proc.disk == DiskAfter(s.disk, ReadySteps(s, p, f), k)
  {
    hide CheckProcessInfo, CreateId, Save, Update, SaveSteps, UpdateSteps;
    f' := f;
    if CheckProcessInfo(p).Valid? {
      match FindName(s.list, p.name)
      case None =>
        var id := CreateId(s.list, p.name, f.rands);
        if id != INVALID_TOKEN_ID {
          var rf, w := SaveCut(s.disk, NodeFor(p, id), f.read, f.write, k);
          f' := f.(read := rf, write := w);
        }
      case Some(i) =>
        var n := NodeFor(p, s.list[i].tokenId).(name := s.list[i].name);
        if n != s.list[i] {
          var rf, w := UpdateCut(s.disk, n, f.read, f.write, k);
          f' := f.(read := rf, write := w);
        }
    }
  }

  /** Start-up cut short, followed by nothing that changes a file. */
  lemma InitCut(s: Proc, p: Params, f: CallFaults, k: nat) returns (f': CallFaults)
    requires !s.inited && f.lockOk && k <= |InitSteps(s.disk, f.init)|
    ensures f'.lockOk && f'.read.mainReadOk == f.read.mainReadOk && ReadsAlike(f.init.read, f'.init.read)
    ensures Call(s, p, f').proc.disk == DiskAfter(s.disk, InitSteps(s.disk, f.init), k)
  {
    hide ReadAndParse, ReadSteps, LoadList, ClearSteps, CallReady;
    var d, g := s.disk, f.init;
    var r, read := ReadAndParse(d, g.read), ReadSteps(d, g.read);
    DiskAfterBoth(d, read, if Loads(r) then [] else ClearSteps(r.disk, g), k);
    if k <= |read| {
      var rf := ReadCut(d, g.read, k);
      f' := Quieted(f).(init := InitFaults(rf, false, false, false, false));
      QuietKeepsDisk(EnsureInit(s, f'), p, f');
    } else {
      var whole := ReadCut(d, g.read, |read|);
      var g' := ClearCut(r.disk, g, k - |read|);
      f' := f.(init := g');
    }
  }

  /** A call stopped after any number of its steps leaves the disk of a complete call with the same answers about
      reading the main file. */
  lemma CrashIsCall(s: Proc, p: Params, f: CallFaults, k: nat) returns (f': CallFaults)
    ensures Call(s, p, f').proc.disk == DiskAfter(s.disk, CallSteps(s, p, f), k)
    ensures f'.read.mainReadOk == f.read.mainReadOk && f'.init.read.mainReadOk == f.init.read.mainReadOk
  {
    hide InitSteps, ReadySteps, CallReady, Init;
    f' := f;
    if f.lockOk {
      var s1 := EnsureInit(s, f);
      var first: seq<Disk> := if s.inited then [] else InitSteps(s.disk, f.init);
      var second := if s1.inited then ReadySteps(s1, p, f) else [];
      DiskAfterBoth(s.disk, first, second, k);
      if !s.inited && k <= |first| {
        f' := InitCut(s, p, f, k);
      } else {
        if !s.inited {
          InitStepsEnd(s.disk, f.init);
        }
        if s1.inited {
          f' := ReadyCut(s1, p, f, k - |first|);
        }
      }
    }
  }

  /** All steps of a start-up lead to the disk of its transition. */
  lemma InitStepsEnd(d: Disk, f: InitFaults)
    ensures DiskAfter(d, InitSteps(d, f), |InitSteps(d, f)|) == Init(d, f).disk
  {
    hide LoadList;
    var r, read := ReadAndParse(d, f.read), ReadSteps(d, f.read);
    var whole := ReadCut(d, f.read, |read|);
    DiskAfterBoth(d, read, if Loads(r) then [] else ClearSteps(r.disk, f), |InitSteps(d, f)|);
  }

  /** All steps of a call lead to the disk of its transition. */
  lemma StepsEnd(s: Proc, p: Params, f: CallFaults)
    ensures DiskAfter(s.disk, CallSteps(s, p, f), |CallSteps(s, p, f)|) == Call(s, p, f).proc.disk
  {
    hide InitSteps, ReadySteps, CallReady, Init;
    if f.lockOk {
      var s1 := EnsureInit(s, f);
      var first: seq<Disk> := if s.inited then [] else InitSteps(s.disk, f.init);
      var second := if s1.inited then ReadySteps(s1, p, f) else [];
      DiskAfterBoth(s.disk, first, second, |first| + |second|);
      if !s.inited {
        InitStepsEnd(s.disk, f.init);
      }
      if s1.inited {
        ReadyStepsEnd(s1, p, f);
      }
    }
  }

  lemma ReadyStepsEnd(s: Proc, p: Params, f: CallFaults)
    ensures var steps := ReadySteps(s, p, f); DiskAfter(s.disk, steps, |steps|) == CallReady(s, p, f).proc.disk
  {
    hide CheckProcessInfo, CreateId, Save, Update, SaveSteps, UpdateSteps;
    if CheckProcessInfo(p).Valid? {
      match FindName(s.list, p.name)
      case None => FileStepsEnd(s.disk, NodeFor(p, CreateId(s.list, p.name, f.rands)), f.read, f.write);
      case Some(i) => FileStepsEnd(s.disk, NodeFor(p, s.list[i].tokenId).(name := s.list[i].name), f.read, f.write);
    }
  }

  lemma FileStepsEnd(d: Disk, n: TokenNode, rf: ReadFaults, w: Outcome)
    ensures DiskAfter(d, SaveSteps(d, n, rf, w), |SaveSteps(d, n, rf, w)|) == Save(d, n, rf, w).disk
    ensures DiskAfter(d, UpdateSteps(d, n, rf, w), |UpdateSteps(d, n, rf, w)|) == Update(d, n, rf, w).disk
  {
    hide EncodeNode, Append, UpdateGoal, WithChildren, ReadSteps, ReadAndParse;
    var r, read := ReadAndParse(d, rf), ReadSteps(d, rf);
    var whole := ReadCut(d, rf, |read|);
    GoalKeepsLength(Children(Base(r)), n);
    if !(r.record.None? && !r.ok) {
      var v := Append(Base(r), EncodeNode(n));
      DiskAfterBoth(d, read, WriteSteps(r.disk, v, w), |read| + |WriteSteps(r.disk, v, w)|);
      var goal := UpdateGoal(Children(Base(r)), n);
      if goal.Some? {
        var u := WithChildren(Base(r), goal.value);
        DiskAfterBoth(d, read, WriteSteps(r.disk, u, w), |read| + |WriteSteps(r.disk, u, w)|);
      } else {
        DiskAfterBoth(d, read, [], |read|);
      }
    } else {
      DiskAfterBoth(d, read, [], |read|);
    }
  }
}
