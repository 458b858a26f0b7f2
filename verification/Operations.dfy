/** What one operation on a config comes to when nothing interferes: its row, and the outbound in its own words. */
module Operations {
  import opened Prelude
  import opened Text
  import opened Credentials
  import opened Xray
  import opened Provisioning

  // --- the outbound of a row ------------------------------------------------------------------------

  /** The proxy that a row asks for. The first product carries the location in the user name, at most a day of life, and
      the second one in the password, at most a week. */
  lemma OutboundIs(cfg: Settings, site: nat, r: Record, area: string, state: string, city: string, session: string)
    ensures var loc := Location(r.area, r.state, r.city, r.life, r.session);
            StandsFor(loc, area, state, city, session) ==>
              var ob := Build(cfg, site, r);
              && ob.tag == "out-" + Dec(site) && ob.body.Proxy?
              && (r.product.Residential? ==>
                    var life := if r.life <= 0 then 0 else if r.life > 1440 then 1440 else r.life;
                    && ob.body == Proxy(cfg.smartHost, cfg.smartPort, ob.body.user, cfg.smartPassword)
                    && ob.body.user == BuildUsername(cfg.smartBase, loc)
                    && DecodeUsername(cfg.smartBase, ob.body.user) == Location(area, state, city, life, session))
              && (r.product.Residential2? ==>
                    var life := if r.life <= 0 then 0 else if r.life > 10080 then 10080 else r.life;
                    && ob.body == Proxy(cfg.iproyalHost, cfg.iproyalPort, cfg.iproyalUser, ob.body.pass)
                    && ob.body.pass == BuildIproyalPassword(cfg.iproyalPassword, loc)
                    && DecodePassword(cfg.iproyalPassword, ob.body.pass)
                       == Location(Lower(area), Lower(state), Lower(city), life, session))
  {
    hide Dec, Lower, BuildUsername, BuildIproyalPassword, DecodeUsername, DecodePassword, StandsFor, Part;
    var loc := Location(r.area, r.state, r.city, r.life, r.session);
    if StandsFor(loc, area, state, city, session) {
      StandsForAnyLife(loc, LocationOf(r), area, state, city, session);
      UsernameIs(cfg.smartBase, loc, area, state, city, session);
      UsernameIs(cfg.smartBase, LocationOf(r), area, state, city, session);
      PasswordIs(cfg.iproyalPassword, loc, area, state, city, session);
      PasswordIs(cfg.iproyalPassword, LocationOf(r), area, state, city, session);
    }
  }

  lemma StandsForAnyLife(a: Location, b: Location, area: string, state: string, city: string, session: string)
    requires StandsFor(a, area, state, city, session) && b.(life := a.life) == a
    ensures StandsFor(b, area, state, city, session)
  {
    hide Wraps;
  }

  // --- one operation from its start to its end ----------------------------------------------------------

  /** Started, edited under the lock and ended, with no other step in between. */
  function Alone(cfg: Settings, s: State, st: Step): State {
    Next(cfg, Edit(cfg, Next(cfg, s, st), |s.tasks|), Restarted(|s.tasks|))
  }

  /** The lives that the two products allow. */
  function LifeIn(product: Product, minutes: int): int {
    var most := if product.Residential2? then 10080 else 1440;
    if minutes <= 0 then 0 else if minutes > most then most else minutes
  }

  /** The row after a change: a new session, or a new place with a new session or the old one, or a new life. */
  function Changed(r: Record, st: Step): Record
    requires IsChange(st)
  {
    match st
    case ChangeIp(_, session) => r.(session := session)
    case ChangeLocation(_, area, state, city, None) => r.(area := area, state := state, city := city)
    case ChangeLocation(_, area, state, city, Some(session)) =>
      r.(area := area, state := state, city := city, session := session)
    case SetLife(_, minutes) => r.(life := LifeIn(r.product, minutes))
  }

  /** The config has a row, active or deactivated: it is not just being provisioned or given up. */
  predicate RowExists(s: State, site: nat) {
    site in s.sites && s.sites[site].status != Pending && s.sites[site].status != GivenUp
  }

  /** The second product cannot be built without all of its settings. */
  predicate Missing(cfg: Settings) {
    cfg.iproyalUser == "" || cfg.iproyalPassword == "" || cfg.iproyalHost == ""
  }

  lemma AloneIs(cfg: Settings, s: State, e: State, t: Task)
    requires s.lock.None? && e.lock.None? && t.Doing? && t.phase.Waiting? && e.tasks == s.tasks + [t]
    ensures var i := |s.tasks|;
            Next(cfg, Edit(cfg, e, i), Restarted(i))
            == Finished(e.(panel := Edited(t, e.panel), tasks := s.tasks + [Idle]),
                        Doing(t.site, t.inTag, t.kind, Saved))
  {
    hide Edit, Edited, Finished;
    var i := |s.tasks|;
    EditIsWhole(cfg, e, i);
    assert Edit(cfg, e, i).tasks[i := Idle] == s.tasks + [Idle];
    hide Next;
    FinishedFrom(cfg, Edit(cfg, e, i), i);
  }

  lemma FinishedFrom(cfg: Settings, s: State, i: nat)
    requires TaskAt(s, i).Doing? && TaskAt(s, i).phase.Saved?
    ensures Next(cfg, s, Restarted(i)) == Finished(s.(tasks := s.tasks[i := Idle]), s.tasks[i])
  {
    hide Finished;
  }

  /** A change leaves the row with the new values and nothing else changed, in agreement with the panel. */
  lemma ChangeGoesThrough(cfg: Settings, s: State, st: Step)
    requires s.lock.None? && Tidy(s.panel) && IsChange(st) && RowExists(s, st.site)
    ensures var r := s.sites[st.site].row;
            if r.product.Residential2? && Missing(cfg) then Next(cfg, s, st) == s
            else
              var e := Alone(cfg, s, st);
              && e.sites == s.sites[st.site := s.sites[st.site].(row := Changed(r, st))]
              && e.tasks == s.tasks + [Idle] && e.lock.None? && Agrees(cfg, e.panel, st.site, Changed(r, st))
  {
    hide Build, Edit, Edited, Placed, Tidy, Finished;
    var r := s.sites[st.site].row;
    if Configured(cfg, r.product) {
      var write := WriteOf(r, st);
      assert Written(r, write) == Changed(r, st);
      var t := Doing(st.site, r.inTag, Change(Build(cfg, st.site, Changed(r, st)), write), Waiting);
      var e := Next(cfg, s, st);
      assert e == s.(tasks := s.tasks + [t]);
      AloneIs(cfg, s, e, t);
      BuildTag(cfg, st.site, Changed(r, st));
      ApplyPlacesOwn(t, s.panel);
      FinishedChange(e.(panel := Edited(t, e.panel), tasks := s.tasks + [Idle]), st.site, r.inTag, t.kind);
    }
  }

  lemma FinishedChange(s: State, site: nat, inTag: string, kind: Kind)
    requires site in s.sites && kind.Change?
    ensures Finished(s, Doing(site, inTag, kind, Saved))
            == s.(sites := s.sites[site := s.sites[site].(row := Written(s.sites[site].row, kind.write))])
  {
  }

  /** A new config ends active, with its life brought into the product's range, in agreement with the panel. */
  lemma ProvisionGoesThrough(cfg: Settings, s: State, site: nat, r: Record)
    requires s.lock.None? && Tidy(s.panel) && site !in s.sites
    ensures if r.product.Residential2? && Missing(cfg) then Next(cfg, s, Provision(site, r)) == s
            else
              var row, e := r.(life := LifeIn(r.product, r.life)), Alone(cfg, s, Provision(site, r));
              && e.sites == s.sites[site := Site(Active, row)]
              && e.tasks == s.tasks + [Idle] && e.lock.None? && Agrees(cfg, e.panel, site, row)
  {
    hide Build, Edit, Edited, Placed, Tidy;
    if Configured(cfg, r.product) {
      var row := r.(life := ClampLife(r.life, MaxLife(r.product)));
      assert row == r.(life := LifeIn(r.product, r.life));
      var t := Doing(site, row.inTag, Add(Build(cfg, site, row)), Waiting);
      var e := Next(cfg, s, Provision(site, r));
      assert e == s.(sites := s.sites[site := Site(Pending, row)], tasks := s.tasks + [t]);
      AloneIs(cfg, s, e, t);
      BuildTag(cfg, site, row);
      ApplyPlacesOwn(t, s.panel);
      assert e.sites[site := Site(Active, row)] == s.sites[site := Site(Active, row)];
    }
  }

  /** A deletion deactivates the row and leaves neither the config's outbound nor any rule that names its inbound. */
  lemma DeletionGoesThrough(cfg: Settings, s: State, site: nat)
    requires s.lock.None? && RowExists(s, site)
    ensures var e, row := Alone(cfg, s, Delete(site)), s.sites[site].row;
            && e.sites == s.sites[site := Site(Inactive, row)] && e.tasks == s.tasks + [Idle] && e.lock.None?
            && Tagged(e.panel.outbounds, "out-" + Dec(site)).None?
            && (forall r :: r in e.panel.rules <==> r in s.panel.rules && !(r.isField && row.inTag in r.inbounds))
            && (forall tag :: tag != "out-" + Dec(site) ==>
                  Tagged(e.panel.outbounds, tag) == Tagged(s.panel.outbounds, tag))
  {
    hide Edit, Tagged, Untagged, Unnamed, Dec;
    var t := Doing(site, s.sites[site].row.inTag, Remove, Waiting);
    var e := Next(cfg, s, Delete(site));
    assert e == s.(tasks := s.tasks + [t]);
    AloneIs(cfg, s, e, t);
    UnnamedTwice(s.panel.rules, t.inTag);
    forall tag: string
      ensures Tagged(Untagged(s.panel.outbounds, OutTag(site)), tag)
              == if tag == OutTag(site) then None else Tagged(s.panel.outbounds, tag)
    {
      LookupUntagged(s.panel.outbounds, OutTag(site), tag);
    }
  }

  /** An operation on a config without a row does nothing. */
  lemma NoRowNothing(cfg: Settings, s: State, st: Step)
    requires (IsChange(st) || st.Delete?) && !RowExists(s, st.site)
    ensures Next(cfg, s, st) == s
  {
  }

  /** A failure: before the save it lets go of the lock and leaves the panel as it is. Provisioning then gives the
      inbound up, a change leaves the row as it was, and a deletion deactivates the row all the same. */
  lemma FailureIs(cfg: Settings, s: State, i: nat)
    requires TaskAt(s, i).Doing? && !TaskAt(s, i).phase.Waiting? && TaskAt(s, i).site in s.sites
    ensures var t, e := s.tasks[i], Next(cfg, s, Fail(i));
            var site := s.sites[t.site];
            && e.panel == s.panel && e.tasks == s.tasks[i := Idle]
            && e.lock == (if t.phase.Saved? then s.lock else None)
            && e.sites == s.sites[t.site := match t.kind
                                            case Add(_) => Site(GivenUp, site.row)
                                            case Change(_, _) => site
                                            case Remove => Site(Inactive, site.row)]
  {
    assert s.sites[s.tasks[i].site := s.sites[s.tasks[i].site]] == s.sites;
  }
}
