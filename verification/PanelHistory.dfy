/** What the panel holds for a config after any run at all: overlapping operations, failed restarts and reused inbound
    tags included. */
module PanelHistory {
  import opened Prelude
  import opened Credentials
  import opened Xray
  import opened Provisioning

  /** From no inbounds and any tidy configuration. The panel gives no inbound id twice; nothing else is asked. */
  ghost predicate IsRun(cfg: Settings, states: seq<State>, steps: seq<Step>) {
    && |states| == |steps| + 1 && states[0] == State(states[0].panel, None, map[], []) && Tidy(states[0].panel)
    && forall k :: 0 <= k < |steps| ==>
         (steps[k].Provision? ==> steps[k].site !in states[k].sites) && states[k + 1] == Next(cfg, states[k], steps[k])
  }

  lemma StepTo(cfg: Settings, states: seq<State>, steps: seq<Step>, k: nat)
    requires IsRun(cfg, states, steps) && 0 < k <= |steps|
    ensures steps[k - 1].Provision? ==> steps[k - 1].site !in states[k - 1].sites
    ensures states[k] == Next(cfg, states[k - 1], steps[k - 1])
  {
    hide Next;
    assert steps[k - 1] in steps;
  }

  // --- which outbound the saves have left ---------------------------------------------------------

  /** For every config with a save of its own: the outbound in force, or None if it was cleaned up or displaced. */
  type History = map<nat, Option<Outbound>>

  predicate Saves(s: State, st: Step) {
    st.Save? && TaskAt(s, st.task).Doing? && TaskAt(s, st.task).phase.Fetched?
  }

  /** A save puts its own outbound in force, or none if it cleans up, and displaces every other config that has the same
      inbound tag. No other step counts. */
  function AfterStep(s: State, st: Step, h: History): History {
    if !Saves(s, st) then h
    else
      var t := TaskAt(s, st.task);
      map k | k in h.Keys + {t.site} ::
        if k == t.site then if t.kind.Remove? then None else Some(t.kind.ob)
        else if k in s.sites && s.sites[k].row.inTag == t.inTag then None
        else h[k]
  }

  function InForce(states: seq<State>, steps: seq<Step>, n: nat): History
    requires n <= |steps| < |states|
  {
    if n == 0 then map[] else AfterStep(states[n - 1], steps[n - 1], InForce(states, steps, n - 1))
  }

  // --- the panel follows the history ------------------------------------------------------------------

  /** A task works on its site's tags, and only sites with a save of their own are changed or removed. */
  predicate TaskFits(sites: map<nat, Site>, h: History, t: Task) {
    t.Doing? ==>
      && t.site in sites && t.inTag == sites[t.site].row.inTag
      && (!t.kind.Remove? ==> t.kind.ob.tag == OutTag(t.site))
      && (t.phase.Saved? || !t.kind.Add? ==> t.site in h)
  }

  ghost predicate TasksFit(s: State, h: History) {
    && (forall i :: 0 <= i < |s.tasks| ==> TaskFits(s.sites, h, s.tasks[i]))
    && (forall k :: HasRow(s, k) ==> k in h)
  }

  ghost predicate OnPanel(c: Config, site: nat, inTag: string, found: Option<Outbound>) {
    match found
    case Some(ob) => ob.tag == OutTag(site) && Placed(c, inTag, ob)
    case None => OwnRule(inTag, OutTag(site)) !in c.rules
  }

  ghost predicate PanelFollows(s: State, h: History) {
    forall k :: k in h ==> k in s.sites && OnPanel(s.panel, k, s.sites[k].row.inTag, h[k])
  }

  ghost predicate Inv(s: State, h: History) {
    Tidy(s.panel) && LockOk(s) && TasksFit(s, h) && PanelFollows(s, h)
  }

  /** A step that neither saves nor retags. */
  lemma QuietStep(s: State, e: State, h: History)
    requires PanelFollows(s, h) && e.panel == s.panel
    requires forall k :: k in s.sites ==> k in e.sites && e.sites[k].row.inTag == s.sites[k].row.inTag
    ensures PanelFollows(e, h)
  {
    hide OnPanel;
  }

  /** The saved edit brings the panel in line with the history of one config. */
  lemma EditFollows(t: Task, c: Config, site: nat, inTag: string, was: Option<Outbound>)
    requires t.Doing? && Tidy(c) && (!t.kind.Remove? ==> t.kind.ob.tag == OutTag(t.site))
    requires if site == t.site then inTag == t.inTag else OnPanel(c, site, inTag, was)
    ensures OnPanel(Edited(t, c), site, inTag,
                    if site == t.site then if t.kind.Remove? then None else Some(t.kind.ob)
                    else if inTag == t.inTag then None else was)
  {
    hide Placed, Edited, OutTag, Tidy;
    if site == t.site && !t.kind.Remove? {
      ApplyPlacesOwn(t, c);
    } else if site == t.site || inTag == t.inTag || was.None? {
      EditLeavesNoRule(t, c, site, inTag);
    } else {
      OutTagInjective(site, t.site);
      EditKeepsPlaced(t, c, inTag, was.value);
    }
  }

  lemma SaveFollows(cfg: Settings, s: State, st: Step, h: History)
    requires Inv(s, h) && Saves(s, st)
    ensures PanelFollows(Next(cfg, s, st), AfterStep(s, st, h)) && Tidy(Next(cfg, s, st).panel)
  {
    hide Tidy, OnPanel, Edited, OutTag;
    var t, e, g := TaskAt(s, st.task), Next(cfg, s, st), AfterStep(s, st, h);
    assert TaskFits(s.sites, h, t);
    assert t.phase.copy == s.panel && e.panel == Edited(t, s.panel) && e.sites == s.sites;
    EditStaysTidy(t, s.panel);
    forall k | k in g ensures k in e.sites && OnPanel(e.panel, k, e.sites[k].row.inTag, g[k]) {
      EditFollows(t, s.panel, k, s.sites[k].row.inTag, if k in h then h[k] else None);
    }
  }

  lemma LockKept(cfg: Settings, s: State, st: Step)
    requires LockOk(s)
    ensures LockOk(Next(cfg, s, st))
  {
    hide Edited, Build, Written, Configured, WriteOf;
    var e := Next(cfg, s, st);
    if st.Acquire? || st.Fetch? || st.Save? || st.Fail? {
      if st.task < |s.tasks| && (s.lock.None? || Holding(s.tasks[st.task])) {
        NobodyElseHolds(s, st.task);
      }
    }
  }

  lemma NewTasksFit(cfg: Settings, s: State, st: Step, h: History)
    requires TasksFit(s, h) && (st.Provision? || IsChange(st) || st.Delete?) && (st.Provision? ==> st.site !in s.sites)
    ensures TasksFit(Next(cfg, s, st), h)
  {
    hide Build, Written, Configured, WriteOf, OutTag;
    if st.Provision? {
      BuildTag(cfg, st.site, st.row.(life := ClampLife(st.row.life, MaxLife(st.row.product))));
    } else if IsChange(st) && HasRow(s, st.site) {
      var r := s.sites[st.site].row;
      BuildTag(cfg, st.site, Written(r, WriteOf(r, st)));
    }
  }

  lemma EndedTasksFit(cfg: Settings, s: State, st: Step, h: History)
    requires TasksFit(s, h) && (st.Restarted? || st.Fail?)
    ensures TasksFit(Next(cfg, s, st), h)
  {
    hide OutTag;
    assert TaskFits(s.sites, h, TaskAt(s, st.task));
  }

  lemma MovedTasksFit(cfg: Settings, s: State, st: Step, h: History)
    requires TasksFit(s, h) && (st.Acquire? || st.Fetch? || st.Save?)
    ensures TasksFit(Next(cfg, s, st), AfterStep(s, st, h))
  {
    hide OutTag, Edited;
    assert TaskFits(s.sites, h, TaskAt(s, st.task));
  }

  lemma TasksKept(cfg: Settings, s: State, st: Step, h: History)
    requires TasksFit(s, h) && (st.Provision? ==> st.site !in s.sites)
    ensures TasksFit(Next(cfg, s, st), AfterStep(s, st, h))
  {
    hide TasksFit, Next;
    if st.Acquire? || st.Fetch? || st.Save? {
      MovedTasksFit(cfg, s, st, h);
    } else if st.Restarted? || st.Fail? {
      EndedTasksFit(cfg, s, st, h);
    } else {
      NewTasksFit(cfg, s, st, h);
    }
  }

  lemma NextFollows(cfg: Settings, s: State, st: Step, h: History)
    requires Inv(s, h) && (st.Provision? ==> st.site !in s.sites)
    ensures Inv(Next(cfg, s, st), AfterStep(s, st, h))
  {
    hide Tidy, PanelFollows, TasksFit, LockOk, Next, AfterStep;
    LockKept(cfg, s, st);
    TasksKept(cfg, s, st, h);
    if Saves(s, st) {
      SaveFollows(cfg, s, st, h);
    } else {
      OtherStepsAreQuiet(cfg, s, st, h);
    }
  }

  lemma OtherStepsAreQuiet(cfg: Settings, s: State, st: Step, h: History)
    requires PanelFollows(s, h) && !Saves(s, st) && (st.Provision? ==> st.site !in s.sites)
    ensures PanelFollows(Next(cfg, s, st), AfterStep(s, st, h)) && Next(cfg, s, st).panel == s.panel
  {
    hide PanelFollows, Edited, Build, Configured, WriteOf;
    QuietStep(s, Next(cfg, s, st), h);
  }

  lemma {:induction false} RunFollows(cfg: Settings, states: seq<State>, steps: seq<Step>, n: nat)
    requires IsRun(cfg, states, steps) && n <= |steps|
    ensures Inv(states[n], InForce(states, steps, n))
  {
    hide Next, Tidy, AfterStep;
    if n > 0 {
      RunFollows(cfg, states, steps, n - 1);
      StepTo(cfg, states, steps, n);
      hide Inv;
      NextFollows(cfg, states[n - 1], steps[n - 1], InForce(states, steps, n - 1));
    }
  }

  lemma OnlyOneIsPlaced(cfg: Settings, c: Config, site: nat, r: Record, found: Option<Outbound>)
    requires OnPanel(c, site, r.inTag, found)
    ensures Agrees(cfg, c, site, r) <==> found == Some(Build(cfg, site, r))
  {
    hide Build;
    BuildTag(cfg, site, r);
    if found.None? && Agrees(cfg, c, site, r) {
      PlacedHasRule(c, r.inTag, Build(cfg, site, r));
    }
  }

  /** In every state of every run whatever, a row and the panel agree exactly if the outbound in force for the config is
      the one built from the row: its last own save wrote that outbound, and since then no other config with the same
      inbound tag has been saved. */
  lemma RowAgreesIff(cfg: Settings, states: seq<State>, steps: seq<Step>, n: nat, site: nat)
    requires IsRun(cfg, states, steps) && n <= |steps| && HasRow(states[n], site)
    ensures var h := InForce(states, steps, n);
            site in h
            && (Agrees(cfg, states[n].panel, site, states[n].sites[site].row)
                <==> h[site] == Some(Build(cfg, site, states[n].sites[site].row)))
  {
    hide Next, Tidy, OnPanel, Agrees, InForce, Build;
    RunFollows(cfg, states, steps, n);
    OnlyOneIsPlaced(cfg, states[n].panel, site, states[n].sites[site].row, InForce(states, steps, n)[site]);
  }
}
