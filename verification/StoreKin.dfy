/** What every run of the store keeps, with no assumption on the deployment: names that share
    an inode, and the names an open file is reachable from, have the same kin. */
module StoreKin {
  import opened Append
  import opened Store

  ghost predicate KinInv(s: State) {
    && (forall n :: n in s.names ==> WfPath(n) && s.names[n] < s.next)
    && (forall a, b :: a in s.names && b in s.names && s.names[a] == s.names[b] ==> Kin(a) == Kin(b))
    && (forall u :: u in s.ups ==> WfJob(s.ups[u].job))
    && (forall u :: u in s.ups && s.ups[u].Holding() ==>
          s.ups[u].handle < s.next && HandleKin(s, s.ups[u].handle, s.ups[u].job.final))
  }

  ghost predicate HandleKin(s: State, i: nat, p: Path) {
    forall n :: n in s.names && s.names[n] == i ==> Kin(n) == Kin(p)
  }

  lemma TargetKin(j: Job)
    requires WfJob(j)
    ensures WfPath(j.Target()) && Kin(j.Target()) == Kin(j.final)
  {
    KinOfStaging(j.final);
  }

  lemma StagingKin(j: Job)
    requires WfJob(j)
    ensures WfPath(j.final) && WfPath(StagingPath(j.final))
    ensures Kin(StagingPath(j.final)) == Kin(j.final) && StagingPath(j.final) != j.final
  {
    KinOfStaging(j.final);
    assert Last(StagingPath(j.final)) != Last(j.final);
  }

  /** What one step of an upload may change, program counter by program counter. */
  ghost predicate Shape(s: State, u: nat, t: State)
    requires u in s.ups
  {
    var x := s.ups[u];
    && u in t.ups && t.ups == s.ups[u := t.ups[u]] && t.ups[u].job == x.job
    && (!x.pc.Open? ==> t.next == s.next && t.ups[u].handle == x.handle)
    && (!x.pc.Open? && t.ups[u].Holding() ==> x.Holding())
    && (!x.pc.Open? && !x.pc.Copy? ==> t.inodes == s.inodes)
    && (!x.pc.Link? ==> t.ups[u].linked == x.linked)
    && (!x.pc.Link? && t.binder != s.binder ==>
          (x.pc.Unlink? || x.pc.Discard?) && t.binder == s.binder - {StagingPath(x.job.final)})
    && (!x.pc.Open? && !x.pc.Link? && t.names != s.names ==>
          (x.pc.Unlink? || x.pc.Discard?) && t.names == s.names - {StagingPath(x.job.final)})
  }

  lemma GotoShape(s: State, u: nat, pc: Pc)
    requires u in s.ups
    requires s.ups[u].Holding() || !(pc.Copy? || pc.Flush? || pc.Link?)
    ensures Shape(s, u, Goto(s, u, pc))
  {
  }

  lemma StepShape(s: State, u: nat, ok: bool, k: nat)
    requires u in s.ups && s.ups[u].Active()
    ensures Shape(s, u, DoStep(s, u, ok, k))
  {
    hide StagingPath, ProperPrefixes, Cells, WriteAt, Content, Exists, ReportedSize, AfterCheck, AfterSize, AfterCopy;
    var x, t := s.ups[u], DoStep(s, u, ok, k);
    if !x.pc.Open? && !x.pc.Link? && !(x.pc.Copy? && ok && HasChunk(x, k)) {
      GotoShape(s, u, t.ups[u].pc);
    }
  }

  /** The new state binds no new name and holds no new file. */
  ghost predicate NoNewClaim(s: State, t: State) {
    && t.next == s.next
    && (forall n :: n in t.names ==> n in s.names && t.names[n] == s.names[n])
    && (forall u :: u in t.ups ==> WfJob(t.ups[u].job))
    && (forall u :: u in t.ups && t.ups[u].Holding() ==>
          u in s.ups && s.ups[u].Holding() && t.ups[u].handle == s.ups[u].handle && t.ups[u].job == s.ups[u].job)
  }

  lemma NoNewClaimKeepsKin(s: State, t: State)
    requires KinInv(s) && NoNewClaim(s, t)
    ensures KinInv(t)
  {
    forall u | u in t.ups && t.ups[u].Holding()
      ensures HandleKin(t, t.ups[u].handle, t.ups[u].job.final)
    {
      assert HandleKin(s, s.ups[u].handle, s.ups[u].job.final);
    }
  }

  /** The new state binds `p` to `i`, a new inode or one already bound to `q` of the same kin;
      an upload may now hold `i`. */
  ghost predicate ClaimsAs(s: State, t: State, p: Path, i: nat, q: Path) {
    && s.next <= t.next && i < t.next && WfPath(p)
    && (i == s.next || (q in s.names && s.names[q] == i && Kin(q) == Kin(p)))
    && t.names == s.names[p := i]
    && (forall u :: u in t.ups ==> WfJob(t.ups[u].job))
    && (forall u :: u in t.ups && t.ups[u].Holding() ==>
          if u in s.ups && s.ups[u].Holding()
          then t.ups[u].handle == s.ups[u].handle && t.ups[u].job == s.ups[u].job
          else t.ups[u].handle == i && Kin(t.ups[u].job.final) == Kin(p))
  }

  lemma ClaimKeepsKin(s: State, t: State, p: Path, i: nat, q: Path)
    requires KinInv(s) && ClaimsAs(s, t, p, i, q)
    requires forall u :: u in s.ups && u in t.ups && s.ups[u].Holding() ==> t.ups[u].job == s.ups[u].job
    ensures KinInv(t)
  {
    hide WfJob, Kin, WfPath;
    forall n | n in t.names && n != p
      ensures t.names[n] == s.names[n] && (t.names[n] == i ==> Kin(n) == Kin(p))
    {
    }
    forall u | u in t.ups && t.ups[u].Holding()
      ensures HandleKin(t, t.ups[u].handle, t.ups[u].job.final)
    {
      if u in s.ups && s.ups[u].Holding() {
        assert HandleKin(s, s.ups[u].handle, s.ups[u].job.final);
      }
    }
  }

  lemma OpenKeepsKin(s: State, u: nat, ok: bool)
    requires KinInv(s) && u in s.ups && s.ups[u].pc.Open?
    ensures KinInv(DoOpen(s, u, ok))
  {
    hide WfJob, Kin, WfPath, StagingPath, Content;
    var x, t := s.ups[u], DoOpen(s, u, ok);
    var p := x.job.Target();
    if t.ups[u].Holding() {
      TargetKin(x.job);
      ClaimKeepsKin(s, t, p, t.ups[u].handle, p);
    } else {
      NoNewClaimKeepsKin(s, t);
    }
  }

  lemma LinkKeepsKin(s: State, u: nat, ok: bool)
    requires KinInv(s) && u in s.ups && s.ups[u].pc.Link?
    ensures KinInv(DoLink(s, u, ok))
  {
    hide WfJob, Kin, WfPath, StagingPath, Content;
    var x, t := s.ups[u], DoLink(s, u, ok);
    if t.ups[u].pc.Unlink? {
      var q := StagingPath(x.job.final);
      StagingKin(x.job);
      ClaimKeepsKin(s, t, x.job.final, s.names[q], q);
    } else {
      NoNewClaimKeepsKin(s, t);
    }
  }

  lemma StepKeepsKin(s: State, a: Action)
    requires KinInv(s) && Enabled(s, a)
    ensures KinInv(Apply(s, a))
  {
    if a.Step? && s.ups[a.u].pc.Open? {
      OpenKeepsKin(s, a.u, a.ok);
    } else if a.Step? && s.ups[a.u].pc.Link? {
      LinkKeepsKin(s, a.u, a.ok);
    } else {
      OtherStepsClaimNothing(s, a);
      NoNewClaimKeepsKin(s, Apply(s, a));
    }
  }

  lemma OtherStepsClaimNothing(s: State, a: Action)
    requires KinInv(s) && Enabled(s, a)
    requires !(a.Step? && (s.ups[a.u].pc.Open? || s.ups[a.u].pc.Link?))
    ensures NoNewClaim(s, Apply(s, a))
  {
    hide WfJob, Kin, WfPath;
    if a.Step? {
      StepShape(s, a.u, a.ok, a.k);
    }
  }

  lemma {:induction false} RunKeepsKin(d: Discipline, s: State, actions: seq<Action>)
    requires KinInv(s) && Valid(d, s, actions)
    ensures KinInv(Exec(s, actions))
    decreases |actions|
  {
    if actions != [] {
      StepKeepsKin(s, actions[0]);
      RunKeepsKin(d, Apply(s, actions[0]), actions[1..]);
    }
  }
}
