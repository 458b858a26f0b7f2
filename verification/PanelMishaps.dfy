/** What exactly happens without the rules of the calm runs: a reused inbound tag, a failed restart, and two changes of
    one config at the same time. */
module PanelMishaps {
  import opened Prelude
  import opened Text
  import opened Credentials
  import opened Xray
  import opened Provisioning
  import opened PanelHistory
  import opened CalmRuns

  // --- a tag given away before the cleanup ------------------------------------------------------

  /** Config `a` is being deleted when inbound `b` is created and its config saved and written; then the cleanup of `a`
      is saved. */
  function LateCleanup(cfg: Settings, s: State, a: nat, b: nat, row: Record): State {
    var i := |s.tasks|;
    var started := Next(cfg, Next(cfg, s, Delete(a)), Provision(b, row));
    var provisioned := Next(cfg, Edit(cfg, started, i + 1), Restarted(i + 1));
    Next(cfg, Edit(cfg, provisioned, i), Restarted(i))
  }

  /** The new config ends in agreement exactly if it did not get the inbound tag of the one being deleted. */
  lemma LateCleanupAgreesIff(cfg: Settings, s: State, a: nat, b: nat, row: Record)
    requires s.lock.None? && Tidy(s.panel) && IsActive(s, a) && !Busy(s, a)
    requires b !in s.sites && !Busy(s, b) && Configured(cfg, row.product)
    ensures var e := LateCleanup(cfg, s, a, b, row);
            && IsActive(e, b) && !Busy(e, b)
            && (Agrees(cfg, e.panel, b, e.sites[b].row) <==> row.inTag != s.sites[a].row.inTag)
  {
    hide Build, Placed, Tidy, Edit, Edited, OutTag;
    var i, r := |s.tasks|, row.(life := ClampLife(row.life, MaxLife(row.product)));
    var remove := Doing(a, s.sites[a].row.inTag, Remove, Waiting);
    var add := Doing(b, r.inTag, Add(Build(cfg, b, r)), Waiting);
    var started := Next(cfg, Next(cfg, s, Delete(a)), Provision(b, row));
    assert started.tasks == s.tasks + [remove, add];
    EditIsWhole(cfg, started, i + 1);
    var saved := Edit(cfg, started, i + 1);
    var provisioned := Next(cfg, saved, Restarted(i + 1));
    assert provisioned.tasks[i] == remove && provisioned.sites[b] == Site(Active, r);
    EditIsWhole(cfg, provisioned, i);
    var cleaned := Edit(cfg, provisioned, i);
    var e := LateCleanup(cfg, s, a, b, row);
    assert e.sites[b] == Site(Active, r) && e.panel == Edited(remove, Edited(add, s.panel));
    assert e.tasks == s.tasks + [Idle, Idle];
    BuildTag(cfg, b, r);
    ApplyPlacesOwn(add, s.panel);
    EditKeepsAgreementIff(cfg, Edited(add, s.panel), remove, b, r);
  }

  // --- a failed restart -----------------------------------------------------------------------------

  /** If the restart fails after a change was saved, row and panel agree exactly if the change changed nothing about the
      outbound. This asks only that the change is the last save that counts for its config; other operations on it may
      be in flight. */
  lemma FailedRestartAgreesIff(cfg: Settings, s: State, h: History, i: nat)
    requires Inv(s, h) && TaskAt(s, i).Doing? && TaskAt(s, i).phase.Saved? && TaskAt(s, i).kind.Change?
    requires TaskAt(s, i).site in h && h[TaskAt(s, i).site] == Some(TaskAt(s, i).kind.ob)
    ensures var t, e := s.tasks[i], Next(cfg, s, Fail(i));
            && t.site in s.sites && e.sites == s.sites && e.panel == s.panel
            && ((forall j :: 0 <= j < |s.tasks| && s.tasks[j].Doing? && s.tasks[j].site == t.site ==> j == i)
                ==> !Busy(e, t.site))
            && (Agrees(cfg, e.panel, t.site, e.sites[t.site].row) <==>
                  t.kind.ob == Build(cfg, t.site, s.sites[t.site].row))
  {
    hide Tidy, Build, Written, OnPanel, Agrees;
    var t, e := s.tasks[i], Next(cfg, s, Fail(i));
    assert TaskFits(s.sites, h, t);
    OnlyOneIsPlaced(cfg, s.panel, t.site, s.sites[t.site].row, h[t.site]);
  }

  /** An IP change whose edit is saved and whose restart fails. */
  function FailedIpChange(cfg: Settings, s: State, site: nat, session: string): State {
    var i := |s.tasks|;
    Next(cfg, Edit(cfg, Next(cfg, s, ChangeIp(site, session)), i), Fail(i))
  }

  /** It leaves an active, resting row that agrees with the panel exactly if the session is not a new one. */
  lemma FailedIpChangeAgreesIff(cfg: Settings, s: State, site: nat, session: string)
    requires s.lock.None? && Tidy(s.panel) && IsActive(s, site) && !Busy(s, site)
    requires var r := s.sites[site].row;
             && Configured(cfg, r.product)
             && Plain(Cleaned(LocationOf(r))) && Plain(Cleaned(LocationOf(r.(session := session))))
    ensures var e := FailedIpChange(cfg, s, site, session);
            && e.sites == s.sites && IsActive(e, site) && !Busy(e, site)
            && (Agrees(cfg, e.panel, site, e.sites[site].row) <==> Strip(session) == Strip(s.sites[site].row.session))
  {
    hide Build, Placed, Tidy, Edit, Edited, OutTag, Plain, Cleaned, LocationOf, Strip, OnPanel;
    var i, r := |s.tasks|, s.sites[site].row;
    var t := Doing(site, r.inTag,
                   Change(Build(cfg, site, r.(session := session)), Place(r.area, r.state, r.city, session)), Waiting);
    var started := Next(cfg, s, ChangeIp(site, session));
    assert started == s.(tasks := s.tasks + [t]);
    EditIsWhole(cfg, started, i);
    var saved := Edit(cfg, started, i);
    assert saved.tasks[i].phase.Saved? && saved.panel == Edited(t, s.panel);
    var e := FailedIpChange(cfg, s, site, session);
    assert e.tasks == s.tasks + [Idle] && e.panel == Edited(t, s.panel);
    BuildTag(cfg, site, r.(session := session));
    EditFollows(t, s.panel, site, r.inTag, None);
    OnlyOneIsPlaced(cfg, e.panel, site, r, Some(t.kind.ob));
    NewSessionNewOutbound(cfg, site, r, session);
  }

  // --- two changes of one config ----------------------------------------------------------------------

  /** After two edits of one config only the last one counts, whatever the row ends up as. */
  lemma LastSaveDecides(cfg: Settings, c: Config, first: Task, last: Task, row: Record)
    requires Tidy(c) && first.Doing? && last.Doing? && first.kind.Change? && last.kind.Change?
    requires first.site == last.site && last.inTag == row.inTag
    requires first.kind.ob.tag == OutTag(first.site) && last.kind.ob.tag == OutTag(last.site)
    ensures Agrees(cfg, Edited(last, Edited(first, c)), last.site, row) <==> last.kind.ob == Build(cfg, last.site, row)
  {
    hide Build, Placed, Tidy, Edited, OutTag, OnPanel;
    EditStaysTidy(first, c);
    EditFollows(last, Edited(first, c), last.site, row.inTag, None);
    OnlyOneIsPlaced(cfg, Edited(last, Edited(first, c)), last.site, row, Some(last.kind.ob));
  }

  /** Two changes that have both read the row; the first is saved before the second. Their rows are written in the same
      order or in the other. */
  function Raced(cfg: Settings, s: State, first: Step, last: Step, inOrder: bool): State {
    var i := |s.tasks|;
    var started := Next(cfg, Next(cfg, s, first), last);
    var edited := Edit(cfg, Edit(cfg, started, i), i + 1);
    if inOrder then Next(cfg, Next(cfg, edited, Restarted(i)), Restarted(i + 1))
    else Next(cfg, Next(cfg, edited, Restarted(i + 1)), Restarted(i))
  }

  function BothWritten(r: Record, first: Write, last: Write, inOrder: bool): Record {
    if inOrder then Written(Written(r, first), last) else Written(Written(r, last), first)
  }

  /** For any two changes of one config at the same time and either order of the row writes: row and panel end in
      agreement exactly if the change saved last would have built the same outbound from the final row. */
  lemma RacedChangesAgreeIff(cfg: Settings, s: State, site: nat, first: Step, last: Step, inOrder: bool)
    requires s.lock.None? && Tidy(s.panel) && HasRow(s, site) && !Busy(s, site)
    requires IsChange(first) && IsChange(last) && first.site == last.site == site
    requires Configured(cfg, s.sites[site].row.product)
    ensures var r, e := s.sites[site].row, Raced(cfg, s, first, last, inOrder);
            var row := BothWritten(r, WriteOf(r, first), WriteOf(r, last), inOrder);
            && !Busy(e, site) && e.sites == s.sites[site := s.sites[site].(row := row)]
            && (Agrees(cfg, e.panel, site, row) <==>
                  Build(cfg, site, Written(r, WriteOf(r, last))) == Build(cfg, site, row))
  {
    hide Build, Placed, Tidy, Edit, Edited, OutTag, WriteOf, Written;
    var i, r := |s.tasks|, s.sites[site].row;
    var w, v := WriteOf(r, first), WriteOf(r, last);
    var t := Doing(site, r.inTag, Change(Build(cfg, site, Written(r, w)), w), Waiting);
    var u := Doing(site, r.inTag, Change(Build(cfg, site, Written(r, v)), v), Waiting);
    var started := Next(cfg, Next(cfg, s, first), last);
    assert started == s.(tasks := s.tasks + [t, u]);
    EditIsWhole(cfg, started, i);
    var once := Edit(cfg, started, i);
    EditIsWhole(cfg, once, i + 1);
    var twice := Edit(cfg, once, i + 1);
    assert twice.tasks[i].phase.Saved? && twice.tasks[i + 1].phase.Saved?;
    assert twice.panel == Edited(u, Edited(t, s.panel)) && twice.sites == s.sites;
    var row := BothWritten(r, w, v, inOrder);
    RowsWritten(cfg, twice, site, i, inOrder);
    WritesKeepTag(r, w, v, inOrder);
    BuildTag(cfg, site, Written(r, w));
    BuildTag(cfg, site, Written(r, v));
    LastSaveDecides(cfg, s.panel, t, u, row);
    var e := Raced(cfg, s, first, last, inOrder);
    assert e.tasks == s.tasks + [Idle, Idle];
  }

  lemma RowsWritten(cfg: Settings, s: State, site: nat, i: nat, inOrder: bool)
    requires i + 1 < |s.tasks| && site in s.sites
    requires forall j :: i <= j <= i + 1 ==>
               s.tasks[j].Doing? && s.tasks[j].site == site && s.tasks[j].phase.Saved? && s.tasks[j].kind.Change?
    ensures var e := if inOrder then Next(cfg, Next(cfg, s, Restarted(i)), Restarted(i + 1))
                     else Next(cfg, Next(cfg, s, Restarted(i + 1)), Restarted(i));
            var row := BothWritten(s.sites[site].row, s.tasks[i].kind.write, s.tasks[i + 1].kind.write, inOrder);
            && e.panel == s.panel && e.tasks == s.tasks[i := Idle][i + 1 := Idle]
            && e.sites == s.sites[site := s.sites[site].(row := row)]
  {
    hide Written;
  }

  lemma WritesKeepTag(r: Record, first: Write, last: Write, inOrder: bool)
    ensures var row := BothWritten(r, first, last, inOrder); row.inTag == r.inTag && row.product == r.product
  {
  }

  /** So two changes of the same columns agree if their rows are written in the order of the saves. */
  lemma SameColumnsInOrderAgree(cfg: Settings, s: State, site: nat, first: Step, last: Step)
    requires s.lock.None? && Tidy(s.panel) && HasRow(s, site) && !Busy(s, site)
    requires IsChange(first) && IsChange(last) && first.site == last.site == site
    requires Configured(cfg, s.sites[site].row.product) && (first.SetLife? <==> last.SetLife?)
    ensures var e := Raced(cfg, s, first, last, true); site in e.sites && Agrees(cfg, e.panel, site, e.sites[site].row)
  {
    hide Raced, Build, Agrees, Tidy;
    RacedChangesAgreeIff(cfg, s, site, first, last, true);
  }

  // --- when two rows have one outbound -----------------------------------------------------------------

  /** What a row's credential encodes. */
  function Effective(r: Record): Location {
    if r.product.Residential2? then Lowered(Cleaned(LocationOf(r))) else Cleaned(LocationOf(r))
  }

  lemma SameOutboundIff(cfg: Settings, site: nat, a: Record, b: Record)
    requires a.product == b.product && Plain(Cleaned(LocationOf(a))) && Plain(Cleaned(LocationOf(b)))
    ensures Build(cfg, site, a) == Build(cfg, site, b) <==> Effective(a) == Effective(b)
  {
    hide Plain, NormalizeCode, Strip, Join, Fields, Dec, IproyalLifetime, DecodeUsername, DecodePassword, OutTag;
    if a.product.Residential2? {
      PasswordRoundTrip(cfg.iproyalPassword, LocationOf(a));
      PasswordRoundTrip(cfg.iproyalPassword, LocationOf(b));
      if Effective(a) == Effective(b) {
        assert IproyalPairs(Cleaned(LocationOf(a))) == IproyalPairs(Cleaned(LocationOf(b)));
      }
    } else {
      UsernameRoundTrip(cfg.smartBase, LocationOf(a));
      UsernameRoundTrip(cfg.smartBase, LocationOf(b));
    }
  }

  /** A new IP is a new session, so its outbound always differs. */
  lemma NewSessionNewOutbound(cfg: Settings, site: nat, r: Record, session: string)
    requires Plain(Cleaned(LocationOf(r))) && Plain(Cleaned(LocationOf(r.(session := session))))
    ensures Build(cfg, site, r.(session := session)) != Build(cfg, site, r) <==> Strip(session) != Strip(r.session)
  {
    hide Build, Plain, NormalizeCode, Strip, Lower;
    SameOutboundIff(cfg, site, r.(session := session), r);
  }

  /** Two IP changes whose rows are written in the other order agree exactly if they drew the same session. */
  lemma TwoIpChangesAgreeIff(cfg: Settings, s: State, site: nat, a: string, b: string)
    requires s.lock.None? && Tidy(s.panel) && HasRow(s, site) && !Busy(s, site)
    requires var r := s.sites[site].row;
             && Configured(cfg, r.product)
             && Plain(Cleaned(LocationOf(r.(session := a)))) && Plain(Cleaned(LocationOf(r.(session := b))))
    ensures var e := Raced(cfg, s, ChangeIp(site, a), ChangeIp(site, b), false);
            site in e.sites && (Agrees(cfg, e.panel, site, e.sites[site].row) <==> Strip(a) == Strip(b))
  {
    hide Raced, Build, Agrees, Tidy, Plain, Cleaned, LocationOf, Strip;
    var r := s.sites[site].row;
    RacedChangesAgreeIff(cfg, s, site, ChangeIp(site, a), ChangeIp(site, b), false);
    NewSessionNewOutbound(cfg, site, r.(session := a), b);
    assert Written(r, Place(r.area, r.state, r.city, b)) == r.(session := b);
    assert BothWritten(r, Place(r.area, r.state, r.city, a), Place(r.area, r.state, r.city, b), false)
        == r.(session := a);
  }

  /** An IP change and a change of the life write different columns, so both rows are written in every order; yet they
      agree only if the one saved first changed nothing. */
  lemma IpAndLifeAgreeIff(cfg: Settings, s: State, site: nat, session: string, minutes: int, lifeFirst: bool,
                          inOrder: bool)
    requires s.lock.None? && Tidy(s.panel) && HasRow(s, site) && !Busy(s, site)
    requires var r := s.sites[site].row;
             Configured(cfg, r.product) && Plain(Cleaned(LocationOf(r))) && '_' !in Strip(session)
    ensures var r := s.sites[site].row;
            var ip, life := ChangeIp(site, session), SetLife(site, minutes);
            var e := if lifeFirst then Raced(cfg, s, life, ip, inOrder) else Raced(cfg, s, ip, life, inOrder);
            && site in e.sites
            && e.sites[site].row == r.(session := session, life := ClampLife(minutes, MaxLife(r.product)))
            && (Agrees(cfg, e.panel, site, e.sites[site].row) <==>
                  if lifeFirst then ClampLife(minutes, MaxLife(r.product)) == ClampLife(r.life, MaxLife(r.product))
                  else Strip(session) == Strip(r.session))
  {
    hide Raced, Build, Agrees, Tidy, NormalizeCode, Strip, Lower;
    var r := s.sites[site].row;
    var ip, life := ChangeIp(site, session), SetLife(site, minutes);
    var m := ClampLife(minutes, MaxLife(r.product));
    var both := r.(session := session, life := m);
    if lifeFirst {
      RacedChangesAgreeIff(cfg, s, site, life, ip, inOrder);
      SameOutboundIff(cfg, site, r.(session := session), both);
    } else {
      RacedChangesAgreeIff(cfg, s, site, ip, life, inOrder);
      SameOutboundIff(cfg, site, r.(life := m), both);
    }
  }
}
