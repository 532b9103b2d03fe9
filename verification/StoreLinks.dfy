/** Who finalized a name: in any interleaving, of plaintext or encrypted uploads, with any
    failures and crashes, the links of a name and its losses balance. */
module StoreLinks {
  import opened Append
  import opened Store
  import opened StoreKin
  import opened StoreImmutability

  ghost predicate LinkInv(s: State) {
    forall u :: u in s.ups ==> LinkMark(s.ups[u])
  }

  predicate LinkMark(x: Upload) {
    && (x.linked ==> x.pc.Unlink? || x.pc.Done? || x.pc.Crashed?)
    && (x.job.Normal() && (x.pc.Unlink? || (x.pc.Done? && x.pc.outcome.Stored?)) ==> x.linked)
  }

  /** The uploads that bound `F`. */
  ghost function Linkers(s: State, F: Path): set<nat> {
    set u | u in s.ups && Captures(s, u, F) && s.ups[u].linked
  }

  /** The uploads to `F` that returned Ok. */
  ghost function Successes(s: State, F: Path): set<nat> {
    set u | u in s.ups && Captures(s, u, F) && s.ups[u].pc.Done? && s.ups[u].pc.outcome.Stored?
  }

  function Removals(actions: seq<Action>, F: Path): nat
    decreases |actions|
  {
    if actions == [] then 0
    else (if actions[0] == SweepFile(F) then 1 else 0) + Removals(actions[1..], F)
  }

  function Once(b: bool): nat {
    if b then 1 else 0
  }

  /** How often `F` stopped being finalized. */
  ghost function Losses(s: State, actions: seq<Action>, F: Path): nat
    decreases |actions|
  {
    if actions == [] then 0
    else
      Once(IsFinalized(s, F) && !IsFinalized(Apply(s, actions[0]), F))
      + Losses(Apply(s, actions[0]), actions[1..], F)
  }

  // ------------------------------------------------------------------ who finalized a name

  /** Every finalized name is bound, and was linked by an upload to it. */
  ghost predicate BinderInv(s: State) {
    forall p :: p in s.binder ==> p in s.names && LinkedBy(s, s.binder[p], p)
  }

  ghost predicate LinkedBy(s: State, u: nat, p: Path) {
    u in s.ups && s.ups[u].job.final == p && s.ups[u].linked
  }

  lemma StepKeepsBinderInv(s: State, a: Action)
    requires BinderInv(s) && Enabled(s, a)
    ensures BinderInv(Apply(s, a))
  {
    hide WfJob, ProperPrefixes, StagingPath, WriteAt, Cells;
    if a.Step? && !s.ups[a.u].pc.Link? {
      StepShape(s, a.u, a.ok, a.k);
      if s.ups[a.u].pc.Open? {
        OpenKeepsNames(s, a.u, a.ok);
      }
      hide DoStep;
    }
  }

  lemma OpenKeepsNames(s: State, u: nat, ok: bool)
    requires u in s.ups
    ensures s.names.Keys <= DoOpen(s, u, ok).names.Keys
  {
  }

  lemma {:induction false} RunKeepsBinderInv(d: Discipline, s: State, actions: seq<Action>)
    requires BinderInv(s) && Valid(d, s, actions)
    ensures BinderInv(Exec(s, actions))
    decreases |actions|
  {
    if actions != [] {
      StepKeepsBinderInv(s, actions[0]);
      RunKeepsBinderInv(d, Apply(s, actions[0]), actions[1..]);
    }
  }

  lemma {:induction false} RunKeepsPlainNames(d: Discipline, s: State, actions: seq<Action>)
    requires d.plainNames && PlainNames(s) && Valid(d, s, actions)
    ensures PlainNames(Exec(s, actions))
    decreases |actions|
  {
    if actions != [] {
      StepKeepsPlainNames(d, s, actions[0]);
      RunKeepsPlainNames(d, Apply(s, actions[0]), actions[1..]);
    }
  }

  /** Where no capture is named like a staging file, no staging name is ever finalized or stored to. */
  lemma StagingNamesUnused(d: Discipline, run: seq<Action>, F: Path)
    requires d.plainNames && Valid(d, EmptyArchive, run) && FinalName(F) && IsStagingName(F)
    ensures
      var s := Exec(EmptyArchive, run);
      !IsFinalized(s, F) && Successes(s, F) == {} && Linkers(s, F) == {}
  {
    var s := Exec(EmptyArchive, run);
    RunKeepsPlainNames(d, EmptyArchive, run);
    RunKeepsBinderInv(d, EmptyArchive, run);
    RunKeepsKin(d, EmptyArchive, run);
    assert forall u :: !Captures(s, u, F);
    if IsFinalized(s, F) {
      FinalizedIsCaptured(s, F);
    }
  }

  lemma FinalizedIsCaptured(s: State, F: Path)
    requires KinInv(s) && BinderInv(s) && FinalName(F) && IsFinalized(s, F)
    ensures Captures(s, s.binder[F], F)
  {
    assert LinkedBy(s, s.binder[F], F);
    assert WfJob(s.ups[s.binder[F]].job);
  }

  /** A name that is not a staging name is finalized as soon as it is bound. */
  lemma StepFinalizes(s: State, a: Action, F: Path)
    requires KinInv(s) && Enabled(s, a) && CaptureName(F) && (F in s.names ==> F in s.binder)
    ensures F in Apply(s, a).names ==> F in Apply(s, a).binder
  {
    if F !in s.names && F in Apply(s, a).names {
      OnlyLinkBinds(s, a, F);
    } else if a.Step? {
      CaptureFacts(F, s.ups[a.u].job);
      StepKeepsMark(s, a.u, a.ok, a.k, F);
    }
    hide DoStep, WfJob, Kin, StagingPath, WfPath, KinInv;
  }

  lemma StepKeepsMark(s: State, u: nat, ok: bool, k: nat, F: Path)
    requires u in s.ups && s.ups[u].Active() && StagingPath(s.ups[u].job.final) != F
    ensures F in s.binder ==> F in DoStep(s, u, ok, k).binder
  {
    StepShape(s, u, ok, k);
    if s.ups[u].pc.Link? {
      LinkKeepsNames(s, u, ok);
    }
    hide StagingPath;
  }

  lemma {:induction false} RunFinalizes(d: Discipline, s: State, actions: seq<Action>, F: Path)
    requires KinInv(s) && Valid(d, s, actions) && CaptureName(F) && (F in s.names ==> F in s.binder)
    ensures F in Exec(s, actions).names ==> F in Exec(s, actions).binder
    decreases |actions|
  {
    if actions != [] {
      StepFinalizes(s, actions[0], F);
      StepKeepsKin(s, actions[0]);
      RunFinalizes(d, Apply(s, actions[0]), actions[1..], F);
    }
  }

  // ------------------------------------------------------------------ uploads and their links

  lemma StepKeepsLinkInv(s: State, a: Action)
    requires LinkInv(s) && Enabled(s, a)
    ensures LinkInv(Apply(s, a))
  {
    if a.Step? {
      StepShape(s, a.u, a.ok, a.k);
      StepKeepsLinkMark(s, a);
      hide DoStep;
    }
  }

  lemma StepKeepsLinkMark(s: State, a: Action)
    requires LinkInv(s) && Enabled(s, a) && a.Step?
    ensures LinkMark(Apply(s, a).ups[a.u])
  {
    assert LinkMark(s.ups[a.u]);
    hide WfJob, LinkInv, ProperPrefixes, StagingPath;
  }

  lemma SameLinkers(s: State, t: State, u: nat, F: Path)
    requires u in s.ups && u in t.ups && t.ups == s.ups[u := t.ups[u]] && t.ups[u].job == s.ups[u].job
    requires Captures(s, u, F) ==> t.ups[u].linked == s.ups[u].linked
    ensures Linkers(t, F) == Linkers(s, F)
  {
    forall v
      ensures v in Linkers(t, F) <==> v in Linkers(s, F)
    {
    }
  }

  /** A step that does not finalize `F` adds no linker. */
  lemma OtherStepsLinkNothing(s: State, a: Action, F: Path)
    requires Enabled(s, a) && BinderInv(s)
    requires F !in s.binder ==> F !in Apply(s, a).binder
    ensures Linkers(Apply(s, a), F) == Linkers(s, F)
  {
    hide WfJob, ProperPrefixes, StagingPath;
    if a.Step? {
      StepShape(s, a.u, a.ok, a.k);
      LinkFinalizes(s, a, F);
      SameLinkers(s, Apply(s, a), a.u, F);
    } else if a.Crash? {
      SameLinkers(s, Apply(s, a), a.u, F);
    } else {
      forall v
        ensures v in Linkers(Apply(s, a), F) <==> v in Linkers(s, F)
      {
      }
    }
  }

  lemma LinkFinalizes(s: State, a: Action, F: Path)
    requires Enabled(s, a) && a.Step? && BinderInv(s)
    requires F !in s.binder ==> F !in Apply(s, a).binder
    ensures Captures(s, a.u, F) ==> Apply(s, a).ups[a.u].linked == s.ups[a.u].linked
  {
    if !s.ups[a.u].pc.Link? {
      StepShape(s, a.u, a.ok, a.k);
    }
  }

  /** A name becomes finalized by the link step of an upload to it, and by nothing else. */
  lemma OnlyLinkFinalizes(s: State, a: Action, F: Path)
    requires KinInv(s) && Enabled(s, a) && FinalName(F) && F !in s.binder && F in Apply(s, a).binder
    ensures a.Step? && Captures(s, a.u, F) && s.ups[a.u].pc.Link? && Apply(s, a) == DoLink(s, a.u, a.ok)
    ensures Apply(s, a).ups[a.u].pc.Unlink?
  {
    assert a.Step? ==> WfJob(s.ups[a.u].job);
    if a.Step? && !s.ups[a.u].pc.Link? {
      StepShape(s, a.u, a.ok, a.k);
      hide DoStep;
    }
    hide StagingPath, WfPath;
  }

  lemma LinkAddsOne(s: State, a: Action, F: Path)
    requires Enabled(s, a) && FinalName(F) && KinInv(s) && LinkInv(s)
    requires F !in s.binder && F in Apply(s, a).binder
    ensures |Linkers(Apply(s, a), F)| == |Linkers(s, F)| + 1
  {
    OnlyLinkFinalizes(s, a, F);
    NewLinker(s, a.u, a.ok, F);
  }

  lemma NewLinker(s: State, u: nat, ok: bool, F: Path)
    requires LinkInv(s) && Captures(s, u, F) && s.ups[u].pc.Link? && DoLink(s, u, ok).ups[u].pc.Unlink?
    ensures |Linkers(DoLink(s, u, ok), F)| == |Linkers(s, F)| + 1
  {
    assert LinkMark(s.ups[u]);
    var t := DoLink(s, u, ok);
    assert t.ups == s.ups[u := s.ups[u].(pc := Unlink, linked := true)];
    hide DoLink, LinkInv;
    forall v
      ensures v in Linkers(t, F) <==> v in Linkers(s, F) + {u}
    {
    }
    assert Linkers(t, F) == Linkers(s, F) + {u} && u !in Linkers(s, F);
  }

  lemma StepBalances(s: State, a: Action, F: Path)
    requires KinInv(s) && LinkInv(s) && BinderInv(s) && Enabled(s, a) && FinalName(F)
    ensures
      var t := Apply(s, a);
      |Linkers(t, F)| + Once(IsFinalized(s, F))
      == |Linkers(s, F)| + Once(IsFinalized(t, F)) + Once(IsFinalized(s, F) && !IsFinalized(t, F))
  {
    StepKeepsBinderInv(s, a);
    if F !in s.binder && F in Apply(s, a).binder {
      LinkAddsOne(s, a, F);
    } else {
      OtherStepsLinkNothing(s, a, F);
    }
  }

  /** Over every run and for every name a capture can have: the uploads that finalized the name are
      as many as the times it stopped being finalized, and one more if it is finalized now. */
  lemma {:induction false} LinksBalance(d: Discipline, s: State, actions: seq<Action>, F: Path)
    requires KinInv(s) && LinkInv(s) && BinderInv(s) && Valid(d, s, actions) && FinalName(F)
    ensures LinkInv(Exec(s, actions))
    ensures
      |Linkers(Exec(s, actions), F)| + Once(IsFinalized(s, F))
      == |Linkers(s, F)| + Once(IsFinalized(Exec(s, actions), F)) + Losses(s, actions, F)
    decreases |actions|
  {
    if actions != [] {
      var a := actions[0];
      StepBalances(s, a, F);
      StepKeepsKin(s, a);
      StepKeepsLinkInv(s, a);
      StepKeepsBinderInv(s, a);
      LinksBalance(d, Apply(s, a), actions[1..], F);
    }
  }

  // ------------------------------------------------------------------ how a name is lost

  /** A finalized name is lost only to the sweep, or, if it is itself a staging name, to an upload
      whose staging file it is taken for. */
  lemma LossHasCause(s: State, a: Action, F: Path)
    requires KinInv(s) && BinderInv(s) && Enabled(s, a) && IsFinalized(s, F) && !IsFinalized(Apply(s, a), F)
    ensures
      || a == SweepFile(F)
      || (IsStagingName(F) && a.Step? && StagingPath(s.ups[a.u].job.final) == F
          && (s.ups[a.u].pc.Unlink? || s.ups[a.u].pc.Discard?))
  {
    if a.Step? {
      assert WfJob(s.ups[a.u].job);
      KinOfStaging(s.ups[a.u].job.final);
      StepRemoves(s, a.u, a.ok, a.k, F);
    }
    hide DoStep, WfJob, WfPath, Kin, IsStagingName, StagingPath;
  }

  lemma StepRemoves(s: State, u: nat, ok: bool, k: nat, F: Path)
    requires u in s.ups && s.ups[u].Active() && IsFinalized(s, F) && !IsFinalized(DoStep(s, u, ok, k), F)
    ensures StagingPath(s.ups[u].job.final) == F && (s.ups[u].pc.Unlink? || s.ups[u].pc.Discard?)
  {
    hide StagingPath;
    StepShape(s, u, ok, k);
    if s.ups[u].pc.Open? {
      OpenKeepsNames(s, u, ok);
    } else if s.ups[u].pc.Link? {
      LinkKeepsNames(s, u, ok);
    }
  }

  lemma LinkKeepsNames(s: State, u: nat, ok: bool)
    requires u in s.ups
    ensures s.names.Keys <= DoLink(s, u, ok).names.Keys && s.binder.Keys <= DoLink(s, u, ok).binder.Keys
  {
    hide StagingPath;
  }

  /** For a name that is no staging name the losses are the removals by the sweep. */
  lemma {:induction false} LossesAreRemovals(d: Discipline, s: State, actions: seq<Action>, F: Path)
    requires KinInv(s) && BinderInv(s) && Valid(d, s, actions) && CaptureName(F) && (F in s.names ==> F in s.binder)
    ensures Losses(s, actions, F) == Removals(actions, F)
    decreases |actions|
  {
    if actions != [] {
      var a := actions[0];
      if IsFinalized(s, F) && !IsFinalized(Apply(s, a), F) {
        LossHasCause(s, a, F);
      }
      StepFinalizes(s, a, F);
      StepKeepsKin(s, a);
      StepKeepsBinderInv(s, a);
      LossesAreRemovals(d, Apply(s, a), actions[1..], F);
    }
  }

  /** In any interleaving, the stores that return Ok each finalized the name by their own link, and
      there are at most one more of them than the name was lost. */
  lemma OkIsLink(d: Discipline, actions: seq<Action>, F: Path)
    requires Valid(d, EmptyArchive, actions) && FinalName(F)
    ensures
      var s := Exec(EmptyArchive, actions);
      && Successes(s, F) <= Linkers(s, F)
      && |Linkers(s, F)| == Once(IsFinalized(s, F)) + Losses(EmptyArchive, actions, F)
      && |Successes(s, F)| <= 1 + Losses(EmptyArchive, actions, F)
  {
    var s := Exec(EmptyArchive, actions);
    LinksBalance(d, EmptyArchive, actions, F);
    assert Linkers(EmptyArchive, F) == {};
    assert Successes(s, F) <= Linkers(s, F);
    SubsetSize(Successes(s, F), Linkers(s, F));
  }

  /** Each Ok for one name is followed by a removal of it by the sweep before the next one. */
  ghost predicate OkOncePerName(d: Discipline, F: Path) {
    forall run :: Valid(d, EmptyArchive, run) ==> |Successes(Exec(EmptyArchive, run), F)| <= 1 + Removals(run, F)
  }

  /** So it is for every name that is no staging name, and for the staging names where no capture
      is named like one. */
  lemma AtMostOneOkPerName(d: Discipline, F: Path)
    requires FinalName(F) && (IsStagingName(F) ==> d.plainNames)
    ensures OkOncePerName(d, F)
  {
    forall run | Valid(d, EmptyArchive, run)
      ensures |Successes(Exec(EmptyArchive, run), F)| <= 1 + Removals(run, F)
    {
      if IsStagingName(F) {
        StagingNamesUnused(d, run, F);
      } else {
        OkIsLink(d, run, F);
        LossesAreRemovals(d, EmptyArchive, run, F);
      }
    }
  }

  lemma {:induction false} SubsetSize(a: set<nat>, b: set<nat>)
    requires a <= b
    ensures |a| <= |b|
    decreases |a|
  {
    if a != {} {
      var x :| x in a;
      SubsetSize(a - {x}, b - {x});
    }
  }
}
