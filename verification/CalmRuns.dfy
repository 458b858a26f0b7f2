/** Runs in which the callers keep to rules that they can check: every resting config agrees with its row. */
module CalmRuns {
  import opened Prelude
  import opened Credentials
  import opened Xray
  import opened Provisioning
  import opened PanelHistory

  /** A deletion has saved its cleanup and is about to deactivate the row. */
  predicate CleanedUpOn(s: State, site: nat) {
    exists i :: 0 <= i < |s.tasks| && s.tasks[i].Doing? && s.tasks[i].site == site && s.tasks[i].phase.Saved?
                && s.tasks[i].kind.Remove?
  }

  /** Configs that need their inbound tag: an active row, or an operation in flight, until a deletion has cleaned up. */
  predicate Claimed(s: State, site: nat) {
    site in s.sites && (s.sites[site].status.Active? || Busy(s, site)) && !CleanedUpOn(s, site)
  }

  ghost predicate TagFree(s: State, site: nat, tag: string) {
    forall k :: Claimed(s, k) && k != site ==> s.sites[k].row.inTag != tag
  }

  /** An operation starts on a config that has none in flight, and for a new inbound or a deactivated row on an inbound
      tag that no other config needs; and a change of an active row whose restart fails has changed nothing. */
  ghost predicate Calm(cfg: Settings, s: State, st: Step) {
    if st.Provision? then TagFree(s, st.site, st.row.inTag)
    else if IsChange(st) || st.Delete? then
      HasRow(s, st.site) ==>
        !Busy(s, st.site) && (IsActive(s, st.site) || TagFree(s, st.site, s.sites[st.site].row.inTag))
    else if st.Fail? then
      var t := TaskAt(s, st.task);
      t.Doing? && t.phase.Saved? && t.kind.Change? && IsActive(s, t.site) ==>
        t.kind.ob == Build(cfg, t.site, s.sites[t.site].row)
    else true
  }

  // --- what calm steps keep ----------------------------------------------------------------------

  predicate OpOk(cfg: Settings, sites: map<nat, Site>, t: Task) {
    t.Doing? ==>
      && t.site in sites && t.inTag == sites[t.site].row.inTag
      && var status, row := sites[t.site].status, sites[t.site].row;
      match t.kind
      case Add(ob) => status.Pending? && ob == Build(cfg, t.site, row)
      case Change(ob, w) => (status.Active? || status.Inactive?) && ob == Build(cfg, t.site, Written(row, w))
      case Remove => status.Active? || status.Inactive?
  }

  ghost predicate OpsOk(cfg: Settings, s: State) {
    && (forall i :: 0 <= i < |s.tasks| ==> OpOk(cfg, s.sites, s.tasks[i]))
    && (forall i, j :: 0 <= i < j < |s.tasks| && s.tasks[i].Doing? && s.tasks[j].Doing? ==>
          s.tasks[i].site != s.tasks[j].site)
  }

  ghost predicate TagsDiffer(s: State) {
    forall j, k :: Claimed(s, j) && Claimed(s, k) && j != k ==> s.sites[j].row.inTag != s.sites[k].row.inTag
  }

  predicate SavedOn(s: State, site: nat) {
    exists i :: 0 <= i < |s.tasks| && s.tasks[i].Doing? && s.tasks[i].site == site && s.tasks[i].phase.Saved?
  }

  /** The outbound of every row is in force, or that of the saved operation that will write the row. */
  ghost predicate ForceOk(cfg: Settings, s: State, h: History) {
    && (forall k :: IsActive(s, k) && !SavedOn(s, k) ==> k in h && h[k] == Some(Build(cfg, k, s.sites[k].row)))
    && (forall i :: 0 <= i < |s.tasks| && s.tasks[i].Doing? && s.tasks[i].phase.Saved? && !s.tasks[i].kind.Remove? ==>
          s.tasks[i].site in h && h[s.tasks[i].site] == Some(s.tasks[i].kind.ob))
  }

  ghost predicate Orderly(cfg: Settings, s: State, h: History) {
    OpsOk(cfg, s) && TagsDiffer(s) && ForceOk(cfg, s, h)
  }

  lemma StaysBusy(s: State, e: State, site: nat)
    requires Busy(s, site) && |s.tasks| <= |e.tasks|
    requires forall i :: 0 <= i < |s.tasks| && s.tasks[i].Doing? && s.tasks[i].site == site ==>
               e.tasks[i].Doing? && e.tasks[i].site == site
    ensures Busy(e, site)
  {
    var i :| 0 <= i < |s.tasks| && s.tasks[i].Doing? && s.tasks[i].site == site;
    assert e.tasks[i].Doing?;
  }

  lemma StaysSaved(s: State, e: State, site: nat)
    requires SavedOn(s, site) && |s.tasks| <= |e.tasks|
    requires forall i :: 0 <= i < |s.tasks| && s.tasks[i].Doing? && s.tasks[i].site == site ==> e.tasks[i] == s.tasks[i]
    ensures SavedOn(e, site)
  {
    var i :| 0 <= i < |s.tasks| && s.tasks[i].Doing? && s.tasks[i].site == site && s.tasks[i].phase.Saved?;
    assert e.tasks[i] == s.tasks[i];
  }

  lemma StaysCleanedUp(s: State, e: State, site: nat)
    requires CleanedUpOn(s, site) && |s.tasks| <= |e.tasks|
    requires forall i ::
               0 <= i < |s.tasks| && s.tasks[i].Doing? && s.tasks[i].site == site && s.tasks[i].phase.Saved? ==>
                 e.tasks[i] == s.tasks[i]
    ensures CleanedUpOn(e, site)
  {
    var i :| 0 <= i < |s.tasks| && s.tasks[i].Doing? && s.tasks[i].site == site && s.tasks[i].phase.Saved?
             && s.tasks[i].kind.Remove?;
    assert e.tasks[i] == s.tasks[i];
  }

  lemma TagsStay(s: State, e: State)
    requires TagsDiffer(s)
    requires forall k :: Claimed(e, k) ==> Claimed(s, k) && e.sites[k].row.inTag == s.sites[k].row.inTag
    ensures TagsDiffer(e)
  {
    hide Busy, CleanedUpOn;
  }

  lemma SpawnTags(s: State, site: nat, inTag: string, kind: Kind)
    requires TagsDiffer(s) && TagFree(s, site, inTag) && site in s.sites && s.sites[site].row.inTag == inTag
    ensures TagsDiffer(Spawn(s, site, inTag, kind))
  {
    var e := Spawn(s, site, inTag, kind);
    forall k | k != site && Claimed(e, k) ensures Claimed(s, k) {
      if Busy(e, k) {
        var i :| 0 <= i < |e.tasks| && e.tasks[i].Doing? && e.tasks[i].site == k;
        assert s.tasks[i].Doing?;
      }
      if CleanedUpOn(s, k) {
        StaysCleanedUp(s, e, k);
      }
    }
    hide Claimed;
  }

  lemma SpawnForce(cfg: Settings, s: State, site: nat, inTag: string, kind: Kind, h: History)
    requires ForceOk(cfg, s, h)
    ensures ForceOk(cfg, Spawn(s, site, inTag, kind), h)
  {
    hide Build;
    var e := Spawn(s, site, inTag, kind);
    forall k | SavedOn(s, k) ensures SavedOn(e, k) {
      StaysSaved(s, e, k);
    }
  }

  /** A new operation; the config may have been unclaimed before. */
  lemma SpawnKeeps(cfg: Settings, s: State, site: nat, inTag: string, kind: Kind, h: History)
    requires Orderly(cfg, s, h) && !Busy(s, site) && TagFree(s, site, inTag)
    requires OpOk(cfg, s.sites, Doing(site, inTag, kind, Waiting))
    ensures Orderly(cfg, Spawn(s, site, inTag, kind), h)
  {
    hide Build, Written, TagsDiffer, TagFree, ForceOk;
    SpawnTags(s, site, inTag, kind);
    SpawnForce(cfg, s, site, inTag, kind, h);
  }

  lemma NewSiteKeeps(cfg: Settings, s: State, site: nat, row: Record, h: History)
    requires Orderly(cfg, s, h) && site !in s.sites && TagFree(s, site, row.inTag)
    ensures var e := s.(sites := s.sites[site := Site(Pending, row)]);
            Orderly(cfg, e, h) && !Busy(e, site) && TagFree(e, site, row.inTag)
  {
    hide Build, Written, TagsDiffer, TagFree;
    var e := s.(sites := s.sites[site := Site(Pending, row)]);
    assert forall k :: SavedOn(s, k) <==> SavedOn(e, k);
    assert forall i :: 0 <= i < |s.tasks| ==> OpOk(cfg, s.sites, s.tasks[i]);
    NewSiteClaims(s, site, row);
  }

  lemma NewSiteClaims(s: State, site: nat, row: Record)
    requires TagsDiffer(s) && site !in s.sites && TagFree(s, site, row.inTag)
    requires forall i :: 0 <= i < |s.tasks| && s.tasks[i].Doing? ==> s.tasks[i].site in s.sites
    ensures var e := s.(sites := s.sites[site := Site(Pending, row)]);
            TagsDiffer(e) && !Busy(e, site) && TagFree(e, site, row.inTag)
  {
    var e := s.(sites := s.sites[site := Site(Pending, row)]);
    assert !Busy(e, site);
    forall k | Claimed(e, k) ensures Claimed(s, k) && e.sites[k].row.inTag == s.sites[k].row.inTag {
      assert Busy(s, k) <==> Busy(e, k);
      assert CleanedUpOn(s, k) <==> CleanedUpOn(e, k);
    }
    TagsStay(s, e);
  }

  /** An operation moves on. */
  lemma PhaseKeeps(cfg: Settings, s: State, i: nat, phase: Phase, e: State, h: History)
    requires Orderly(cfg, s, h) && i < |s.tasks| && s.tasks[i].Doing? && !s.tasks[i].phase.Saved? && !phase.Saved?
    requires e.sites == s.sites
    requires var t := s.tasks[i]; e.tasks == s.tasks[i := Doing(t.site, t.inTag, t.kind, phase)]
    ensures Orderly(cfg, e, h)
  {
    hide Build, Written, TagsDiffer, Claimed;
    assert OpOk(cfg, s.sites, s.tasks[i]);
    FewerClaims(s, e);
    forall k | SavedOn(s, k) ensures SavedOn(e, k) {
      var j :| 0 <= j < |s.tasks| && s.tasks[j].Doing? && s.tasks[j].site == k && s.tasks[j].phase.Saved?;
      assert e.tasks[j] == s.tasks[j];
    }
  }

  /** No operation starts. */
  lemma FewerClaims(s: State, e: State)
    requires TagsDiffer(s) && e.sites == s.sites && |e.tasks| == |s.tasks|
    requires forall i :: 0 <= i < |s.tasks| && e.tasks[i].Doing? ==>
               s.tasks[i].Doing? && e.tasks[i].site == s.tasks[i].site
    requires forall i :: 0 <= i < |s.tasks| && s.tasks[i].Doing? && s.tasks[i].phase.Saved? ==> e.tasks[i] == s.tasks[i]
    ensures TagsDiffer(e)
  {
    forall k | Claimed(e, k) ensures Claimed(s, k) {
      if Busy(e, k) {
        StaysBusy(e, s, k);
      }
      if CleanedUpOn(s, k) {
        StaysCleanedUp(s, e, k);
      }
    }
    TagsStay(s, e);
  }

  lemma IsBusy(s: State, i: nat)
    requires TaskAt(s, i).Doing?
    ensures Busy(s, s.tasks[i].site)
  {
  }

  lemma SaveKeeps(cfg: Settings, s: State, st: Step, h: History)
    requires Orderly(cfg, s, h) && Saves(s, st)
    ensures Orderly(cfg, Next(cfg, s, st), AfterStep(s, st, h))
  {
    hide Build, Written, Edited;
    var t, e, g := s.tasks[st.task], Next(cfg, s, st), AfterStep(s, st, h);
    assert OpOk(cfg, s.sites, t);
    FewerClaims(s, e);
    IsBusy(s, st.task);
    assert Claimed(s, t.site);
    forall k: nat | IsActive(e, k) && !SavedOn(e, k) ensures k in g && g[k] == Some(Build(cfg, k, e.sites[k].row)) {
      assert e.tasks[st.task].phase.Saved?;
      assert k != t.site;
      assert !SavedOn(s, k) by {
        if SavedOn(s, k) {
          StaysSaved(s, e, k);
        }
      }
      assert Claimed(s, k);
    }
    forall j | 0 <= j < |e.tasks| && e.tasks[j].Doing? && e.tasks[j].phase.Saved? && !e.tasks[j].kind.Remove?
      ensures e.tasks[j].site in g && g[e.tasks[j].site] == Some(e.tasks[j].kind.ob)
    {
      if j != st.task {
        assert OpOk(cfg, s.sites, s.tasks[j]);
        IsBusy(s, j);
        assert Claimed(s, s.tasks[j].site);
      }
    }
  }

  lemma EndClaims(s: State, i: nat, e: State)
    requires i < |s.tasks| && s.tasks[i].Doing? && s.tasks[i].site in s.sites && e.tasks == s.tasks[i := Idle]
    requires forall k :: k in e.sites ==> k in s.sites && (k == s.tasks[i].site || e.sites[k] == s.sites[k])
    requires var k := s.tasks[i].site;
             k in e.sites && e.sites[k].status.Active? ==> !(s.tasks[i].kind.Remove? && s.tasks[i].phase.Saved?)
    requires forall j :: 0 <= j < |s.tasks| && j != i && s.tasks[j].Doing? ==> s.tasks[j].site != s.tasks[i].site
    ensures forall k :: Claimed(e, k) ==> Claimed(s, k)
  {
    IsBusy(s, i);
    forall k | Claimed(e, k) ensures Claimed(s, k) {
      if Busy(e, k) {
        StaysBusy(e, s, k);
      }
      if CleanedUpOn(s, k) && k != s.tasks[i].site {
        StaysCleanedUp(s, e, k);
      }
    }
  }

  lemma EndForce(cfg: Settings, s: State, i: nat, e: State, h: History)
    requires ForceOk(cfg, s, h) && i < |s.tasks| && s.tasks[i].Doing? && e.tasks == s.tasks[i := Idle]
    requires forall k :: k in e.sites && k != s.tasks[i].site ==> k in s.sites && e.sites[k] == s.sites[k]
    requires var k := s.tasks[i].site;
             IsActive(e, k) ==> k in h && h[k] == Some(Build(cfg, k, e.sites[k].row))
    ensures ForceOk(cfg, e, h)
  {
    hide Build;
    forall k: nat | IsActive(e, k) && !SavedOn(e, k) ensures k in h && h[k] == Some(Build(cfg, k, e.sites[k].row)) {
      if k != s.tasks[i].site && SavedOn(s, k) {
        StaysSaved(s, e, k);
      }
    }
  }

  /** An operation ends, writing at most its own site; if that stays active, its outbound is in force. */
  lemma EndKeeps(cfg: Settings, s: State, i: nat, site: Site, e: State, h: History)
    requires Orderly(cfg, s, h) && i < |s.tasks| && s.tasks[i].Doing?
    requires var t := s.tasks[i];
             && site.row.inTag == t.inTag && !site.status.Pending?
             && e.sites == s.sites[t.site := site] && e.tasks == s.tasks[i := Idle]
             && (site.status.Active? ==> t.site in h && h[t.site] == Some(Build(cfg, t.site, site.row)))
             && (site.status.Active? ==> !(t.kind.Remove? && t.phase.Saved?))
    ensures Orderly(cfg, e, h)
  {
    hide Build, Written, Claimed, ForceOk;
    var t := s.tasks[i];
    assert OpOk(cfg, s.sites, t);
    EndClaims(s, i, e);
    TagsStay(s, e);
    EndForce(cfg, s, i, e, h);
    forall j | 0 <= j < |e.tasks| ensures OpOk(cfg, e.sites, e.tasks[j]) {
      assert OpOk(cfg, s.sites, s.tasks[j]);
    }
  }

  lemma RestartedKeeps(cfg: Settings, s: State, i: nat, h: History)
    requires Orderly(cfg, s, h) && TaskAt(s, i).Doing? && TaskAt(s, i).phase.Saved?
    ensures Orderly(cfg, Next(cfg, s, Restarted(i)), h)
  {
    hide Build;
    var t := s.tasks[i];
    assert OpOk(cfg, s.sites, t);
    var site := s.sites[t.site];
    var after := match t.kind
      case Add(_) => Site(Active, site.row)
      case Change(_, w) => Site(site.status, Written(site.row, w))
      case Remove => Site(Inactive, site.row);
    EndKeeps(cfg, s, i, after, Next(cfg, s, Restarted(i)), h);
  }

  lemma OnlyOnePerSite(cfg: Settings, s: State, i: nat)
    requires OpsOk(cfg, s) && TaskAt(s, i).Doing? && !TaskAt(s, i).phase.Saved?
    ensures !SavedOn(s, s.tasks[i].site)
  {
  }

  lemma FailKeeps(cfg: Settings, s: State, i: nat, h: History)
    requires Orderly(cfg, s, h) && TaskAt(s, i).Doing? && !TaskAt(s, i).phase.Waiting? && Calm(cfg, s, Fail(i))
    ensures Orderly(cfg, Next(cfg, s, Fail(i)), h)
  {
    hide Build, Written;
    var t := s.tasks[i];
    assert OpOk(cfg, s.sites, t);
    var site := s.sites[t.site];
    var after := match t.kind
      case Add(_) => Site(GivenUp, site.row)
      case Change(_, _) => site
      case Remove => Site(Inactive, site.row);
    if !t.phase.Saved? {
      OnlyOnePerSite(cfg, s, i);
    }
    assert s.sites[t.site := site] == s.sites;
    EndKeeps(cfg, s, i, after, Next(cfg, s, Fail(i)), h);
  }

  lemma CleanedUpIsBusy(s: State, site: nat)
    ensures CleanedUpOn(s, site) ==> Busy(s, site)
  {
  }

  lemma ActiveTagIsFree(s: State, site: nat)
    requires TagsDiffer(s) && IsActive(s, site) && !Busy(s, site)
    ensures TagFree(s, site, s.sites[site].row.inTag)
  {
    CleanedUpIsBusy(s, site);
    assert Claimed(s, site);
  }

  lemma StartKeeps(cfg: Settings, s: State, st: Step, h: History)
    requires Orderly(cfg, s, h) && (IsChange(st) || st.Delete?) && Calm(cfg, s, st)
    ensures Orderly(cfg, Next(cfg, s, st), h)
  {
    hide Orderly, Build, Written, Busy, TagFree, TagsDiffer;
    if HasRow(s, st.site) {
      var r := s.sites[st.site].row;
      if IsActive(s, st.site) {
        assert TagsDiffer(s) by { OrderlyTags(cfg, s, h); }
        ActiveTagIsFree(s, st.site);
      }
      if st.Delete? {
        SpawnKeeps(cfg, s, st.site, r.inTag, Remove, h);
      } else if Configured(cfg, r.product) {
        var write := WriteOf(r, st);
        SpawnKeeps(cfg, s, st.site, r.inTag, Change(Build(cfg, st.site, Written(r, write)), write), h);
      }
    }
  }

  lemma OrderlyTags(cfg: Settings, s: State, h: History)
    requires Orderly(cfg, s, h)
    ensures TagsDiffer(s)
  {
  }

  lemma ProvisionKeeps(cfg: Settings, s: State, st: Step, h: History)
    requires Orderly(cfg, s, h) && st.Provision? && st.site !in s.sites && Calm(cfg, s, st)
    ensures Orderly(cfg, Next(cfg, s, st), h)
  {
    hide Orderly, Build, TagFree, Busy;
    if Configured(cfg, st.row.product) {
      var row := st.row.(life := ClampLife(st.row.life, MaxLife(st.row.product)));
      NewSiteKeeps(cfg, s, st.site, row, h);
      var e := s.(sites := s.sites[st.site := Site(Pending, row)]);
      SpawnKeeps(cfg, e, st.site, row.inTag, Add(Build(cfg, st.site, row)), h);
    }
  }

  lemma MoveKeeps(cfg: Settings, s: State, st: Step, h: History)
    requires Orderly(cfg, s, h) && (st.Acquire? || st.Fetch?)
    ensures Orderly(cfg, Next(cfg, s, st), h)
  {
    hide Orderly;
    var t := TaskAt(s, st.task);
    if st.Acquire? && t.Doing? && t.phase.Waiting? && s.lock.None? {
      PhaseKeeps(cfg, s, st.task, Locked, Next(cfg, s, st), h);
    } else if st.Fetch? && t.Doing? && t.phase.Locked? {
      PhaseKeeps(cfg, s, st.task, Fetched(s.panel), Next(cfg, s, st), h);
    }
  }

  lemma CalmStepKeeps(cfg: Settings, s: State, st: Step, h: History)
    requires Orderly(cfg, s, h) && Calm(cfg, s, st) && (st.Provision? ==> st.site !in s.sites)
    ensures Orderly(cfg, Next(cfg, s, st), AfterStep(s, st, h))
  {
    hide Orderly, Calm, StartChange, Finished, Failed, Edited;
    var t := if st.Save? || st.Restarted? || st.Fail? then TaskAt(s, st.task) else Idle;
    if st.Provision? {
      ProvisionKeeps(cfg, s, st, h);
    } else if IsChange(st) || st.Delete? {
      StartKeeps(cfg, s, st, h);
    } else if st.Acquire? || st.Fetch? {
      MoveKeeps(cfg, s, st, h);
    } else if Saves(s, st) {
      SaveKeeps(cfg, s, st, h);
    } else if st.Restarted? && t.Doing? && t.phase.Saved? {
      RestartedKeeps(cfg, s, st.task, h);
    } else if st.Fail? && t.Doing? && !t.phase.Waiting? {
      FailKeeps(cfg, s, st.task, h);
    }
  }

  ghost predicate IsCalm(cfg: Settings, states: seq<State>, steps: seq<Step>) {
    |steps| < |states| && forall k :: 0 <= k < |steps| ==> Calm(cfg, states[k], steps[k])
  }

  lemma {:induction false} CalmRunKeeps(cfg: Settings, states: seq<State>, steps: seq<Step>, n: nat)
    requires IsRun(cfg, states, steps) && IsCalm(cfg, states, steps) && n <= |steps|
    ensures Orderly(cfg, states[n], InForce(states, steps, n))
  {
    hide Next, Calm, AfterStep, Tidy;
    if n > 0 {
      CalmRunKeeps(cfg, states, steps, n - 1);
      StepTo(cfg, states, steps, n);
      assert steps[n - 1] in steps && Calm(cfg, states[n - 1], steps[n - 1]);
      hide Orderly;
      CalmStepKeeps(cfg, states[n - 1], steps[n - 1], InForce(states, steps, n - 1));
    }
  }

  /** In every state of every calm run, however the operations on different configs interleave at the lock: a config
      without an operation in flight whose row is active has exactly one outbound with its tag, which is the one built
      from the stored location, life and session; all traffic of its inbound is routed there. */
  lemma RestingConfigsAgree(cfg: Settings, states: seq<State>, steps: seq<Step>, n: nat, site: nat)
    requires IsRun(cfg, states, steps) && IsCalm(cfg, states, steps) && n <= |steps|
    requires IsActive(states[n], site) && !Busy(states[n], site)
    ensures Agrees(cfg, states[n].panel, site, states[n].sites[site].row)
  {
    hide Next, Calm, Agrees, Tidy, InForce, Build;
    CalmRunKeeps(cfg, states, steps, n);
    RowAgreesIff(cfg, states, steps, n, site);
    assert !SavedOn(states[n], site);
  }
}
