/** Where an interruption leaves a resize or a restore: which cut-off operations the loop takes up again, and which stay
    announced for good and keep the other operations out. */
module Interruptions {
  import opened Prelude
  import opened Operations
  import opened StorageResize

  // ---------------------------------------------------------------------------------------------
  // A resize that is cut off
  // ---------------------------------------------------------------------------------------------

  /** Announced, but with no StatefulSet left that is smaller than the spec: it is gone, and will be created with the
      desired size, or it has that size already. */
  predicate ResizeStuck(s: State) {
    && s.c.resize.Resizing? && Exclusive(s.c)
    && (s.sts.Some? ==> s.sts.value.size == s.spec.size)
    && (s.pc.Idle? || s.mem.size == s.spec.size)
    && (s.pc.Idle? || s.pc.StatusPhase? || s.pc.InitPhase? || s.pc.StoragePhase? || s.pc.StatefulSetPhase? || s.pc.RestorePhase?)
  }

  lemma ResizeStuckStep(s: State)
    requires ResizeStuck(s)
    ensures ResizeStuck(Step(s)) && Step(s).c.update == s.c.update && Step(s).h.restores == s.h.restores
    ensures Step(s).spec == s.spec
  {
    if IsRestoreStep(s.pc) {
      RestoreFrame(s);
    }
  }

  lemma ResizeStuckEvent(s: State, e: Event)
    requires ResizeStuck(s) && Enabled(s, e) && (e.EditSize? ==> e.size == s.spec.size)
    ensures ResizeStuck(Apply(s, e)) && Apply(s, e).c.update == s.c.update && Apply(s, e).h.restores == s.h.restores
    ensures Apply(s, e).spec.size == s.spec.size
  {
    match e {
      case Operator => ResizeStuckStep(s);
      case _ =>
    }
  }

  /** The user leaves the size alone. */
  predicate KeepsSize(es: seq<Event>, size: nat) {
    forall e :: e in es && e.EditSize? ==> e.size == size
  }

  /** Every later pass leaves the condition as it is, so neither a restore nor an update can begin, until the size is
      raised again. */
  lemma {:induction false} ResizeStaysStuck(s: State, es: seq<Event>, t: State)
    requires ResizeStuck(s) && Reaches(s, es, t) && KeepsSize(es, s.spec.size)
    ensures ResizeStuck(t) && t.c.update == s.c.update
    ensures t.h.restores == s.h.restores
    decreases |es|
  {
    if es != [] {
      assert es[0] in es;
      ResizeStuckEvent(s, es[0]);
      assert KeepsSize(es[1..], s.spec.size);
      ResizeStaysStuck(Apply(s, es[0]), es[1..], t);
    }
  }

  /** Some run finishes the resize at the size that is asked for now. */
  ghost predicate CanFinishResize(s: State) {
    exists es, t :: Reaches(s, es, t) && KeepsSize(es, s.spec.size) && t.c.resize.Resized?
  }

  // ---------------------------------------------------------------------------------------------
  // A run that finishes it
  // ---------------------------------------------------------------------------------------------

  ghost predicate NoEdits(es: seq<Event>) {
    forall e :: e in es ==> !e.EditSize?
  }

  /** Switchovers end and Galera becomes ready. */
  function Unlocked(s: State): State {
    s.(c := s.c.(switching := false, galeraNotReady := false))
  }

  lemma Unlock(s: State) returns (es: seq<Event>)
    ensures Reaches(s, es, Unlocked(s)) && NoEdits(es)
  {
    var a := Apply(s, SetSwitching(false));
    ReachesAppend(s, [], s, SetSwitching(false));
    ReachesAppend(s, [] + [SetSwitching(false)], a, SetGaleraNotReady(false));
    es := [] + [SetSwitching(false)] + [SetGaleraNotReady(false)];
  }

  /** The first two steps of a pass that leaves the conditions alone. */
  lemma PassBegins(s: State) returns (es: seq<Event>)
    requires s.pc.Idle? && StatusKeepsConditions(s)
    ensures Reaches(s, es, s.(pc := InitPhase, mem := s.spec)) && NoEdits(es)
  {
    var a := Step(s);
    ReachesAppend(s, [], s, Operator);
    assert Step(a) == s.(pc := InitPhase, mem := s.spec);
    ReachesAppend(s, [] + [Operator], a, Operator);
    es := [] + [Operator] + [Operator];
  }

  /** Nothing stands in the way of the Storage phase any more. */
  lemma GetToStorage(s: State) returns (es: seq<Event>, t: State)
    requires s.pc.Idle? && s.c.resize.Resizing? && Exclusive(s.c) && !s.spec.ephemeral
    ensures Reaches(s, es, t) && NoEdits(es)
    ensures t.pc.StoragePhase? && ShouldReconcileStorage(t) && t.c.resize.Resizing?
    ensures t.spec == t.mem == s.spec && t.sts == s.sts && t.pvcs == s.pvcs
  {
    var es1 := Unlock(s);
    var es2 := PassBegins(Unlocked(s));
    var d := Unlocked(s).(pc := InitPhase, mem := s.spec);
    ReachesTrans(s, es1, Unlocked(s), es2, d);
    var last := if s.spec.bootstrap == Some(Physical) && !s.c.initialized then FinishInit else Operator;
    t := Apply(d, last);
    ReachesAppend(s, es1 + es2, d, last);
    es := es1 + es2 + [last];
  }

  /** The resize is announced and the PVCs are patched. */
  lemma AnnounceAndPatch(s: State) returns (es: seq<Event>, t: State)
    requires s.pc.StoragePhase? && ShouldReconcileStorage(s) && s.c.resize.Resizing? && s.mem == s.spec
    requires s.sts.Some? && s.sts.value.size < s.spec.size
    ensures Reaches(s, es, t) && NoEdits(es)
    ensures t.pc == PatchPVCs(s.spec.size, {}) && t.sts == s.sts && t.mem == t.spec == s.spec && t.pvcs.Keys == s.pvcs.Keys
  {
    var a := Step(s);
    assert a == s.(pc := ListPVCs(s.spec.size));
    ReachesAppend(s, [], s, Operator);
    var b := Step(a);
    ReachesAppend(s, [] + [Operator], a, Operator);
    var rest;
    rest, t := PatchRemaining(b);
    ReachesTrans(s, [] + [Operator] + [Operator], b, rest, t);
    es := [] + [Operator] + [Operator] + rest;
  }

  /** The StatefulSet is deleted, goes, is recreated, and the wait is announced. */
  lemma RecreateAndWait(s: State) returns (es: seq<Event>, t: State)
    requires s.pc.PatchPVCs? && s.pc.todo == {} && s.sts.Some? && s.mem == s.spec
    ensures Reaches(s, es, t) && NoEdits(es)
    ensures t == s.(pc := ScanPVCs, sts := Some(NewStatefulSet(s.spec.size)), c := s.c.(resize := WaitingResize), h := t.h)
  {
    var a := Step(s);
    ReachesAppend(s, [], s, Operator);
    var b := Step(a);
    ReachesAppend(s, [] + [Operator], a, Operator);
    assert b.sts.Some? && b.sts.value.deleting && b.pc.RecreateStatefulSet?;
    var c := Apply(b, FinishDelete);
    ReachesAppend(s, [] + [Operator] + [Operator], b, FinishDelete);
    var d := Step(c);
    ReachesAppend(s, [] + [Operator] + [Operator] + [FinishDelete], c, Operator);
    assert d.pc.AnnounceWaiting? && d.sts == Some(NewStatefulSet(s.spec.size));
    t := Step(d);
    ReachesAppend(s, [] + [Operator] + [Operator] + [FinishDelete] + [Operator], d, Operator);
    es := [] + [Operator] + [Operator] + [FinishDelete] + [Operator] + [Operator];
  }

  /** The volumes finish resizing, one by one. */
  lemma {:induction false} VolumesFinish(s: State, todo: set<nat>) returns (es: seq<Event>, t: State)
    requires todo <= s.pvcs.Keys && forall i :: i in s.pvcs && i !in todo ==> !s.pvcs[i].resizing
    ensures Reaches(s, es, t) && NoEdits(es)
    ensures t == s.(pvcs := t.pvcs) && !AnyResizing(t.pvcs)
    decreases todo
  {
    if todo == {} {
      return [], s;
    }
    var i :| i in todo;
    var u := Apply(s, MarkPVC(i, false));
    var rest;
    rest, t := VolumesFinish(u, todo - {i});
    es := [MarkPVC(i, false)] + rest;
    assert es[1..] == rest;
  }

  /** The Pods become ready and the resize is reported. */
  lemma ReportResized(s: State) returns (es: seq<Event>, t: State)
    requires s.pc.ScanPVCs? && s.sts.Some? && !AnyResizing(s.pvcs)
    ensures Reaches(s, es, t) && NoEdits(es) && t.c.resize.Resized?
  {
    var ready := SetStatefulSetStatus(s.mem.replicas, "");
    var a := Apply(s, ready);
    ReachesAppend(s, [], s, ready);
    var b := Step(a);
    assert b.pc.CheckReady? && b.sts.value.readyReplicas == b.mem.replicas;
    ReachesAppend(s, [] + [ready], a, Operator);
    t := Step(b);
    ReachesAppend(s, [] + [ready] + [Operator], b, Operator);
    es := [] + [ready] + [Operator] + [Operator];
  }

  lemma FinishingRun(s: State) returns (es: seq<Event>, t: State)
    requires s.pc.Idle? && s.c.resize.Resizing? && Exclusive(s.c) && !s.spec.ephemeral
    requires s.sts.Some? && s.sts.value.size < s.spec.size
    ensures Reaches(s, es, t) && NoEdits(es) && t.c.resize.Resized?
  {
    var es1, a := GetToStorage(s);
    var es2, b := AnnounceAndPatch(a);
    ReachesTrans(s, es1, a, es2, b);
    var es3, c := RecreateAndWait(b);
    ReachesTrans(s, es1 + es2, b, es3, c);
    var es4, d := VolumesFinish(c, c.pvcs.Keys);
    ReachesTrans(s, es1 + es2 + es3, c, es4, d);
    var es5;
    es5, t := ReportResized(d);
    ReachesTrans(s, es1 + es2 + es3 + es4, d, es5, t);
    es := es1 + es2 + es3 + es4 + es5;
  }

  /** The exact condition: between passes, an announced resize can still be finished if and only if the StatefulSet is
      there and smaller than the spec. */
  lemma ResizeFinishesIff(s: State)
    requires s.pc.Idle? && s.c.resize.Resizing? && Exclusive(s.c) && !s.spec.ephemeral
    requires s.sts.Some? ==> s.sts.value.size <= s.spec.size
    ensures CanFinishResize(s) <==> s.sts.Some? && s.sts.value.size < s.spec.size
  {
    if s.sts.Some? && s.sts.value.size < s.spec.size {
      var es, t := FinishingRun(s);
      assert KeepsSize(es, s.spec.size);
    } else if CanFinishResize(s) {
      var es, t :| Reaches(s, es, t) && KeepsSize(es, s.spec.size) && t.c.resize.Resized?;
      ResizeStaysStuck(s, es, t);
    }
  }

  /** For a pass that ends in the middle of a resize: it is taken up again if and only if the smaller StatefulSet is
      still there. */
  lemma InterruptedResizeFinishesIff(s: State)
    requires InWindow(s.pc) || s.pc.AnnounceWaiting?
    requires Announced(s) && Exclusive(s.c) && SizeInv(s) && !s.spec.ephemeral
    ensures CanFinishResize(Apply(s, EndPass)) <==> s.sts.Some? && s.sts.value.size < s.spec.size
  {
    ResizeFinishesIff(Apply(s, EndPass));
  }

  /** A pass that ends right after the orphaning delete: the resize is lost the moment the deletion finishes, and the
      next pass creates the StatefulSet with the desired size without taking the resize up. */
  lemma DeletedIsStuck(s: State)
    requires (s.pc.RecreateStatefulSet? || s.pc.AnnounceWaiting?) && Announced(s) && Exclusive(s.c)
    requires s.sts.Some? && s.sts.value.deleting && !(s.spec.bootstrap == Some(Physical) && !s.c.initialized)
    ensures var gone := Apply(Apply(s, EndPass), FinishDelete);
            && ResizeStuck(gone)
            && Steps(gone, 5).sts == Some(NewStatefulSet(s.spec.size)) && ResizeStuck(Steps(gone, 5))
  {
    var gone := Apply(Apply(s, EndPass), FinishDelete);
    PassCreatesStatefulSet(gone);
    StepsStayStuck(gone, 5);
  }

  /** A pass that recreates the StatefulSet and ends before it announces the wait. */
  lemma RecreatedIsStuck(s: State)
    requires s.pc.RecreateStatefulSet? && Announced(s) && Exclusive(s.c) && s.sts.None? && s.mem.size == s.spec.size
    ensures Step(s).pc.AnnounceWaiting? && ResizeStuck(Apply(Step(s), EndPass))
  {
  }

  lemma {:induction false} StepsStayStuck(s: State, n: nat)
    requires ResizeStuck(s)
    ensures ResizeStuck(Steps(s, n))
    decreases n
  {
    if n > 0 {
      ResizeStuckStep(s);
      StepsStayStuck(Step(s), n - 1);
    }
  }

  /** What the next undisturbed pass does: it announces the resize again under the same condition. */
  lemma NextPassResumesIff(s: State)
    requires s.pc.Idle? && s.c.resize.Resizing? && Exclusive(s.c)
    requires !s.c.switching && !s.c.galeraNotReady && !s.spec.ephemeral
    requires !(s.spec.bootstrap == Some(Physical) && !s.c.initialized)
    requires s.sts.Some? ==> s.sts.value.size <= s.spec.size
    ensures Steps(s, 4).pc == ListPVCs(s.spec.size) <==> s.sts.Some? && s.sts.value.size < s.spec.size
  {
    var b := Step(s);
    var c := Step(b);
    assert c == s.(pc := InitPhase, mem := s.spec);
    var d := Step(c);
    assert d == c.(pc := StoragePhase) && ShouldReconcileStorage(d);
    var e := Step(d);
    assert Steps(e, 0) == Steps(d, 1) == Steps(c, 2) == Steps(b, 3) == Steps(s, 4);
  }

  /** The way out: raising the size lets a stuck resize finish if and only if the StatefulSet is there to be compared
      with. */
  lemma RaisedSizeFreesIff(s: State, size: nat)
    requires ResizeStuck(s) && s.pc.Idle? && s.spec.size < size && !s.spec.ephemeral
    ensures CanFinishResize(Apply(s, EditSize(size))) <==> s.sts.Some?
  {
    ResizeFinishesIff(Apply(s, EditSize(size)));
  }

  // ---------------------------------------------------------------------------------------------
  // A restore that is cut off
  // ---------------------------------------------------------------------------------------------

  /** Announced, but without a Restore object: a pass that ended before the create, or after the delete. */
  predicate RestoreStuck(s: State) {
    && s.c.backup.Restoring? && s.restore.None? && s.spec.bootstrap == s.mem.bootstrap == Some(Logical)
    && Exclusive(s.c) && Announced(s)
    && !s.pc.CreateRestore? && !s.pc.MarkRestored?
  }

  /** How it comes about: any pass that ends between the announcement and the create, or between the delete and the
      final patch. */
  lemma InterruptedRestoreIsStuck(s: State)
    requires (s.pc.CreateRestore? || s.pc.MarkRestored?) && Announced(s) && Exclusive(s.c) && s.restore.None?
    requires s.spec.bootstrap == s.mem.bootstrap == Some(Logical)
    ensures RestoreStuck(Apply(s, EndPass))
  {
  }

  lemma RestoreStuckStep(s: State)
    requires RestoreStuck(s)
    ensures RestoreStuck(Step(s)) && Step(s).h.restores == s.h.restores
  {
    StepKeepsExclusion(s);
    if IsResizeStep(s.pc) {
      ResizeFrame(s);
    } else if IsRestoreStep(s.pc) {
      RestoreFrame(s);
    } else {
      match s.pc {
        case Idle =>
        case StatusPhase =>
        case InitPhase =>
        case StoragePhase =>
        case StatefulSetPhase =>
      }
    }
  }

  lemma RestoreStuckEvent(s: State, e: Event)
    requires RestoreStuck(s) && Enabled(s, e)
    ensures RestoreStuck(Apply(s, e)) && Apply(s, e).h.restores == s.h.restores
  {
    EventKeepsExclusion(s, e);
    match e {
      case Operator => RestoreStuckStep(s);
      case _ =>
    }
  }

  /** No pass ever creates the missing object: the MariaDB reports the restore as running for good. */
  lemma {:induction false} RestoreStaysStuck(s: State, es: seq<Event>, t: State)
    requires RestoreStuck(s) && Reaches(s, es, t)
    ensures RestoreStuck(t) && t.h.restores == s.h.restores
    decreases |es|
  {
    if es != [] {
      RestoreStuckEvent(s, es[0]);
      RestoreStaysStuck(Apply(s, es[0]), es[1..], t);
    }
  }

  ghost predicate CanFinishRestore(s: State) {
    exists es, t :: Reaches(s, es, t) && t.c.backup.Restored?
  }

  /** The middle of such a pass: the phases before the restore let it through. */
  lemma GetToRestore(s: State) returns (es: seq<Event>, t: State)
    requires s.pc.InitPhase? && s.c.backup.Restoring? && s.mem == s.spec && s.spec.bootstrap == Some(Logical)
    ensures Reaches(s, es, t) && t.pc.RestorePhase? && t.c == s.c && t.mem == s.mem && t.restore == s.restore
  {
    var c := Step(s);
    ReachesAppend(s, [], s, Operator);
    var d := Step(c);
    assert d == s.(pc := StatefulSetPhase);
    ReachesAppend(s, [] + [Operator], c, Operator);
    t := Step(d);
    ReachesAppend(s, [] + [Operator] + [Operator], d, Operator);
    es := [] + [Operator] + [Operator] + [Operator];
  }

  lemma ReportRestored(s: State) returns (es: seq<Event>, t: State)
    requires s.pc.RestorePhase? && ShouldReconcileRestore(s) && s.c.backup.Restoring? && s.restore == Some(true)
    ensures Reaches(s, es, t) && t.c.backup.Restored?
  {
    var f := Step(s);
    assert f.pc.MarkRestored?;
    ReachesAppend(s, [], s, Operator);
    t := Step(f);
    ReachesAppend(s, [] + [Operator], f, Operator);
    es := [] + [Operator] + [Operator];
  }

  /** An announced restore whose object completes is reported by the next pass. */
  lemma RestoringPass(s: State) returns (es: seq<Event>, t: State)
    requires s.pc.Idle? && s.c.backup.Restoring? && Exclusive(s.c) && s.spec.bootstrap == Some(Logical)
    requires !s.c.switching && !s.c.galeraNotReady && s.restore == Some(true)
    ensures Reaches(s, es, t) && t.c.backup.Restored?
  {
    var es1 := PassBegins(s);
    var b := s.(pc := InitPhase, mem := s.spec);
    var es2, e := GetToRestore(b);
    ReachesTrans(s, es1, b, es2, e);
    var es3;
    es3, t := ReportRestored(e);
    ReachesTrans(s, es1 + es2, e, es3, t);
    es := es1 + es2 + es3;
  }

  /** The exact condition: between passes, an announced restore can still be finished if and only if its Restore object
      exists. */
  lemma RestoreFinishesIff(s: State)
    requires s.pc.Idle? && s.c.backup.Restoring? && Exclusive(s.c) && s.spec.bootstrap == s.mem.bootstrap == Some(Logical)
    ensures CanFinishRestore(s) <==> s.restore.Some?
  {
    if s.restore.Some? {
      var es1 := Unlock(s);
      var c := Apply(Unlocked(s), CompleteRestore);
      ReachesAppend(s, es1, Unlocked(s), CompleteRestore);
      var es2, t := RestoringPass(c);
      ReachesTrans(s, es1 + [CompleteRestore], c, es2, t);
    } else if CanFinishRestore(s) {
      var es, t :| Reaches(s, es, t) && t.c.backup.Restored?;
      RestoreStaysStuck(s, es, t);
    }
  }

  /** For a pass that ends in the middle of a restore. */
  lemma InterruptedRestoreFinishesIff(s: State)
    requires (s.pc.CreateRestore? || s.pc.MarkRestored?) && Announced(s) && Exclusive(s.c)
    requires s.spec.bootstrap == s.mem.bootstrap == Some(Logical)
    ensures CanFinishRestore(Apply(s, EndPass)) <==> s.restore.Some?
  {
    RestoreFinishesIff(Apply(s, EndPass));
  }
}
