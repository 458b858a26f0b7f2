/** Provisioning, changing and deleting residential configs: operations cut at their awaits, which edit one Xray
    configuration under a lock and write the `configs` row afterwards. */
module Provisioning {
  import opened Prelude
  import opened Text
  import opened Credentials
  import opened Xray

  datatype Product = Residential | Residential2

  /** What the outbounds are built from besides the row; fixed during a run. */
  datatype Settings = Settings(
    smartHost: string, smartPort: int, smartBase: string, smartPassword: string,
    iproyalHost: string, iproyalPort: int, iproyalUser: string, iproyalPassword: string)

  /** The columns of a `configs` row that the outbound depends on. */
  datatype Record = Record(
    inTag: string, product: Product, area: string, state: string, city: string, life: int, session: string)

  function MaxLife(product: Product): nat {
    if product.Residential2? then IPROYAL_MAX_LIFE else SMART_MAX_LIFE
  }

  /** An inbound has one outbound of its own, named after the inbound's id. */
  function OutTag(site: nat): string {
    "out-" + Dec(site)
  }

  function LocationOf(r: Record): Location {
    Location(r.area, r.state, r.city, ClampLife(r.life, MaxLife(r.product)), r.session)
  }

  /** `_build_proxy_outbound`: the location goes into the user name or, for the second product, into the password. */
  function Build(cfg: Settings, site: nat, r: Record): Outbound {
    if r.product.Residential2? then
      Outbound(OutTag(site), Proxy(cfg.iproyalHost, cfg.iproyalPort, cfg.iproyalUser,
                                   BuildIproyalPassword(cfg.iproyalPassword, LocationOf(r))))
    else
      Outbound(OutTag(site), Proxy(cfg.smartHost, cfg.smartPort,
                                   BuildUsername(cfg.smartBase, LocationOf(r)), cfg.smartPassword))
  }

  predicate Configured(cfg: Settings, product: Product) {
    product.Residential2? ==> cfg.iproyalUser != "" && cfg.iproyalPassword != "" && cfg.iproyalHost != ""
  }

  // --- state ------------------------------------------------------------------------------------

  /** What the operation will write into its row. */
  datatype Write = Place(area: string, state: string, city: string, session: string) | Life(life: int)

  datatype Kind = Add(ob: Outbound) | Change(ob: Outbound, write: Write) | Remove

  /** Before the lock; holding it; holding it with the configuration as read; configuration saved and lock released. */
  datatype Phase = Waiting | Locked | Fetched(copy: Config) | Saved

  datatype Task = Idle | Doing(site: nat, inTag: string, kind: Kind, phase: Phase)

  /** An inbound of the panel: without a row yet, with an active or a deactivated row, or given up without a row. */
  datatype Status = Pending | Active | Inactive | GivenUp

  datatype Site = Site(status: Status, row: Record)

  datatype State = State(panel: Config, lock: Option<nat>, sites: map<nat, Site>, tasks: seq<Task>)

  datatype Step =
    | Provision(site: nat, row: Record)
    | ChangeIp(site: nat, session: string)
    | ChangeLocation(site: nat, area: string, state: string, city: string, newSession: Option<string>)
    | SetLife(site: nat, minutes: int)
    | Delete(site: nat)
    | Acquire(task: nat)
    | Fetch(task: nat)
    | Save(task: nat)
    | Restarted(task: nat)
    | Fail(task: nat)

  function Written(r: Record, w: Write): Record {
    match w
    case Place(area, state, city, session) => r.(area := area, state := state, city := city, session := session)
    case Life(life) => r.(life := life)
  }

  predicate HasRow(s: State, site: nat) {
    site in s.sites && (s.sites[site].status.Active? || s.sites[site].status.Inactive?)
  }

  function TaskAt(s: State, i: nat): Task {
    if i < |s.tasks| then s.tasks[i] else Idle
  }

  function Spawn(s: State, site: nat, inTag: string, kind: Kind): State {
    s.(tasks := s.tasks + [Doing(site, inTag, kind, Waiting)])
  }

  function SetStatus(s: State, site: nat, status: Status): State {
    if site in s.sites then s.(sites := s.sites[site := s.sites[site].(status := status)]) else s
  }

  predicate IsChange(st: Step) {
    st.ChangeIp? || st.ChangeLocation? || st.SetLife?
  }

  /** What a change will write, given the row it has read. */
  function WriteOf(r: Record, st: Step): Write
    requires IsChange(st)
  {
    match st
    case ChangeIp(_, session) => Place(r.area, r.state, r.city, session)
    case ChangeLocation(_, area, state, city, session) =>
      Place(area, state, city, if session.Some? then session.value else r.session)
    case SetLife(_, minutes) => Life(ClampLife(minutes, MaxLife(r.product)))
  }

  /** A change up to its first await. */
  function StartChange(cfg: Settings, s: State, st: Step): State
    requires IsChange(st)
  {
    if !HasRow(s, st.site) || !Configured(cfg, s.sites[st.site].row.product) then s
    else
      var r := s.sites[st.site].row;
      var write := WriteOf(r, st);
      Spawn(s, st.site, r.inTag, Change(Build(cfg, st.site, Written(r, write)), write))
  }

  /** What an operation does to its copy of the configuration. */
  function Edited(t: Task, c: Config): Config
    requires t.Doing?
  {
    if t.kind.Remove? then CleanedUp(c, t.inTag, OutTag(t.site))
    else Applied(c, t.inTag, t.kind.ob)
  }

  method EditCopy(x: XrayConfig, t: Task)
    requires t.Doing?
    modifies x
    ensures x.Value() == Edited(t, old(x.Value()))
  {
    match t.kind
    case Remove => x.CleanUp(t.inTag, OutTag(t.site));
    case _ =>
      x.UpsertOutbound(t.kind.ob);
      x.UpsertRule(t.inTag, t.kind.ob.tag);
  }

  function Finished(s: State, t: Task): State
    requires t.Doing?
  {
    match t.kind
    case Add(_) => SetStatus(s, t.site, Active)
    case Change(_, w) =>
      if t.site !in s.sites then s
      else
        var site := s.sites[t.site];
        s.(sites := s.sites[t.site := site.(row := Written(site.row, w))])
    case Remove => SetStatus(s, t.site, Inactive)
  }

  /** A panel call failed: provisioning gives the inbound up, a change leaves its row unwritten, a deletion only
      warns. */
  function Failed(s: State, t: Task): State
    requires t.Doing?
  {
    match t.kind
    case Add(_) => SetStatus(s, t.site, GivenUp)
    case Change(_, _) => s
    case Remove => SetStatus(s, t.site, Inactive)
  }

  function Next(cfg: Settings, s: State, st: Step): State {
    match st
    case Provision(site, r) =>
      if !Configured(cfg, r.product) then s
      else
        var row := r.(life := ClampLife(r.life, MaxLife(r.product)));
        Spawn(s.(sites := s.sites[site := Site(Pending, row)]), site, row.inTag, Add(Build(cfg, site, row)))
    case ChangeIp(_, _) => StartChange(cfg, s, st)
    case ChangeLocation(_, _, _, _, _) => StartChange(cfg, s, st)
    case SetLife(_, _) => StartChange(cfg, s, st)
    case Delete(site) => if !HasRow(s, site) then s else Spawn(s, site, s.sites[site].row.inTag, Remove)
    case Acquire(i) =>
      (match TaskAt(s, i)
       case Doing(site, inTag, kind, Waiting) =>
         if s.lock.Some? then s else s.(lock := Some(i), tasks := s.tasks[i := Doing(site, inTag, kind, Locked)])
       case _ => s)
    case Fetch(i) =>
      (match TaskAt(s, i)
       case Doing(site, inTag, kind, Locked) => s.(tasks := s.tasks[i := Doing(site, inTag, kind, Fetched(s.panel))])
       case _ => s)
    case Save(i) =>
      (match TaskAt(s, i)
       case Doing(site, inTag, kind, Fetched(copy)) =>
         s.(panel := Edited(TaskAt(s, i), copy), lock := None, tasks := s.tasks[i := Doing(site, inTag, kind, Saved)])
       case _ => s)
    case Restarted(i) =>
      (match TaskAt(s, i)
       case Doing(_, _, _, Saved) => Finished(s.(tasks := s.tasks[i := Idle]), TaskAt(s, i))
       case _ => s)
    case Fail(i) =>
      (match TaskAt(s, i)
       case Idle => s
       case Doing(_, _, _, Waiting) => s
       case Doing(_, _, _, Saved) => Failed(s.(tasks := s.tasks[i := Idle]), TaskAt(s, i))
       case Doing(_, _, _, _) => Failed(s.(lock := None, tasks := s.tasks[i := Idle]), TaskAt(s, i)))
  }

  // --- what must hold ----------------------------------------------------------------------------

  /** The configuration has this outbound, once, and all traffic of the inbound goes to it. */
  ghost predicate Placed(c: Config, inTag: string, ob: Outbound) {
    && CountTag(c.outbounds, ob.tag) == 1 && Tagged(c.outbounds, ob.tag) == Some(ob)
    && forall holding :: FirstMatch(c.rules, inTag, holding) == Some(OwnRule(inTag, ob.tag))
  }

  /** The row and the configuration agree. */
  ghost predicate Agrees(cfg: Settings, c: Config, site: nat, r: Record) {
    Placed(c, r.inTag, Build(cfg, site, r))
  }

  predicate Busy(s: State, site: nat) {
    exists i :: 0 <= i < |s.tasks| && s.tasks[i].Doing? && s.tasks[i].site == site
  }

  predicate IsActive(s: State, site: nat) {
    site in s.sites && s.sites[site].status.Active?
  }

  /** No two outbounds carry the same tag of the form out-N. */
  ghost predicate Tidy(c: Config) {
    forall k: nat :: CountTag(c.outbounds, OutTag(k)) <= 1
  }

  predicate Holding(t: Task) {
    t.Doing? && (t.phase.Locked? || t.phase.Fetched?)
  }

  /** One holder of the lock, and its copy is up to date. */
  ghost predicate LockOk(s: State) {
    forall i :: 0 <= i < |s.tasks| && Holding(s.tasks[i]) ==>
      s.lock == Some(i) && (s.tasks[i].phase.Fetched? ==> s.tasks[i].phase.copy == s.panel)
  }

  // --- edits -----------------------------------------------------------------------------------------

  lemma OutTagInjective(j: nat, k: nat)
    ensures OutTag(j) == OutTag(k) ==> j == k
  {
    DecRoundTrip(j);
    DecRoundTrip(k);
    assert OutTag(j)[4..] == Dec(j) && OutTag(k)[4..] == Dec(k);
  }

  lemma ApplyPlaces(c: Config, inTag: string, ob: Outbound)
    requires CountTag(c.outbounds, ob.tag) <= 1
    ensures Placed(Applied(c, inTag, ob), inTag, ob)
  {
    LookupUpserted(c.outbounds, ob, ob.tag);
  }

  lemma ApplyKeepsPlaced(c: Config, inTag: string, ob: Outbound, otherTag: string, other: Outbound)
    requires Placed(c, otherTag, other) && otherTag != inTag && other.tag != ob.tag
    ensures Placed(Applied(c, inTag, ob), otherTag, other)
  {
    LookupUpserted(c.outbounds, ob, other.tag);
    forall holding
      ensures FirstMatch(Applied(c, inTag, ob).rules, otherTag, holding) == Some(OwnRule(otherTag, other.tag))
    {
      OtherRoutingKeptIff(c.rules, inTag, ob.tag, otherTag, holding);
      assert FirstMatch(c.rules, otherTag, holding) == Some(OwnRule(otherTag, other.tag));
    }
  }

  lemma CleanupKeepsPlaced(c: Config, inTag: string, tag: string, otherTag: string, other: Outbound)
    requires Placed(c, otherTag, other) && otherTag != inTag && other.tag != tag
    ensures Placed(CleanedUp(c, inTag, tag), otherTag, other)
  {
    LookupUntagged(c.outbounds, tag, other.tag);
    forall holding
      ensures FirstMatch(CleanedUp(c, inTag, tag).rules, otherTag, holding) == Some(OwnRule(otherTag, other.tag))
    {
      assert FirstMatch(c.rules, otherTag, holding) == Some(OwnRule(otherTag, other.tag));
      FirstMatchUnnamed(c.rules, inTag, otherTag, holding);
    }
  }

  lemma EditStaysTidy(t: Task, c: Config)
    requires t.Doing? && Tidy(c)
    ensures Tidy(Edited(t, c))
  {
    forall k: nat ensures CountTag(Edited(t, c).outbounds, OutTag(k)) <= 1 {
      assert CountTag(c.outbounds, OutTag(k)) <= 1;
      if t.kind.Remove? {
        LookupUntagged(c.outbounds, OutTag(t.site), OutTag(k));
      } else {
        LookupUpserted(c.outbounds, t.kind.ob, OutTag(k));
      }
    }
  }

  lemma EditKeepsPlaced(t: Task, c: Config, otherTag: string, other: Outbound)
    requires t.Doing? && Placed(c, otherTag, other) && otherTag != t.inTag
    requires other.tag != OutTag(t.site) && (!t.kind.Remove? ==> t.kind.ob.tag == OutTag(t.site))
    ensures Placed(Edited(t, c), otherTag, other)
  {
    if t.kind.Remove? {
      CleanupKeepsPlaced(c, t.inTag, OutTag(t.site), otherTag, other);
    } else {
      ApplyKeepsPlaced(c, t.inTag, t.kind.ob, otherTag, other);
    }
  }

  lemma ApplyPlacesOwn(t: Task, c: Config)
    requires t.Doing? && !t.kind.Remove? && t.kind.ob.tag == OutTag(t.site) && Tidy(c)
    ensures Placed(Edited(t, c), t.inTag, t.kind.ob)
  {
    assert CountTag(c.outbounds, OutTag(t.site)) <= 1;
    ApplyPlaces(c, t.inTag, t.kind.ob);
  }

  /** The rule that routes an inbound to its own outbound is gone, or still not there, unless the edit puts it there. */
  lemma EditLeavesNoRule(t: Task, c: Config, site: nat, inTag: string)
    requires t.Doing? && (!t.kind.Remove? ==> t.kind.ob.tag == OutTag(t.site))
    requires inTag == t.inTag || OwnRule(inTag, OutTag(site)) !in c.rules
    requires site != t.site || t.kind.Remove?
    ensures OwnRule(inTag, OutTag(site)) !in Edited(t, c).rules
  {
    UnnamedTwice(c.rules, t.inTag);
    OutTagInjective(site, t.site);
  }

  lemma PlacedHasRule(c: Config, inTag: string, ob: Outbound)
    requires Placed(c, inTag, ob)
    ensures OwnRule(inTag, ob.tag) in c.rules
  {
    FirstMatchIsThere(c.rules, inTag, {});
    assert FirstMatch(c.rules, inTag, {}) == Some(OwnRule(inTag, ob.tag));
  }

  lemma BuildTag(cfg: Settings, site: nat, r: Record)
    ensures Build(cfg, site, r).tag == OutTag(site)
  {
  }

  /** An operation on another config keeps a row and the configuration in agreement exactly if it works on another
      inbound tag. */
  lemma EditKeepsAgreementIff(cfg: Settings, c: Config, t: Task, site: nat, r: Record)
    requires t.Doing? && site != t.site && (!t.kind.Remove? ==> t.kind.ob.tag == OutTag(t.site))
    requires Agrees(cfg, c, site, r)
    ensures Agrees(cfg, Edited(t, c), site, r) <==> r.inTag != t.inTag
  {
    hide Build, Placed, Edited, OutTag;
    BuildTag(cfg, site, r);
    OutTagInjective(site, t.site);
    if r.inTag != t.inTag {
      EditKeepsPlaced(t, c, r.inTag, Build(cfg, site, r));
    } else {
      EditLeavesNoRule(t, c, site, r.inTag);
      if Agrees(cfg, Edited(t, c), site, r) {
        PlacedHasRule(Edited(t, c), r.inTag, Build(cfg, site, r));
      }
    }
  }

  // --- the stretch under the lock ------------------------------------------------------------------------

  lemma NobodyElseHolds(s: State, i: nat)
    requires LockOk(s) && i < |s.tasks| && (s.lock.None? || Holding(s.tasks[i]))
    ensures forall j :: 0 <= j < |s.tasks| && j != i ==> !Holding(s.tasks[j])
  {
  }

  /** The stretch of an operation that holds the lock. */
  function Edit(cfg: Settings, s: State, i: nat): State {
    Next(cfg, Next(cfg, Next(cfg, s, Acquire(i)), Fetch(i)), Save(i))
  }

  /** If the lock is free, a waiting operation edits the configuration as a whole. */
  lemma EditIsWhole(cfg: Settings, s: State, i: nat)
    requires s.lock.None? && TaskAt(s, i).Doing? && TaskAt(s, i).phase.Waiting?
    ensures var t := s.tasks[i];
            Edit(cfg, s, i) == s.(panel := Edited(t, s.panel),
                                  tasks := s.tasks[i := Doing(t.site, t.inTag, t.kind, Saved)])
  {
    hide Edited, Finished, Failed;
    var t := s.tasks[i];
    var locked := Next(cfg, s, Acquire(i));
    assert locked.tasks[i] == Doing(t.site, t.inTag, t.kind, Locked);
    var fetched := Next(cfg, locked, Fetch(i));
    assert fetched.tasks[i] == Doing(t.site, t.inTag, t.kind, Fetched(s.panel));
    assert Edited(fetched.tasks[i], s.panel) == Edited(t, s.panel) by { SameEdit(fetched.tasks[i], t, s.panel); }
    assert fetched.tasks[i := Doing(t.site, t.inTag, t.kind, Saved)]
        == s.tasks[i := Doing(t.site, t.inTag, t.kind, Saved)];
  }

  lemma SameEdit(t: Task, u: Task, c: Config)
    requires t.Doing? && u.Doing? && t.site == u.site && t.inTag == u.inTag && t.kind == u.kind
    ensures Edited(t, c) == Edited(u, c)
  {
  }
}
