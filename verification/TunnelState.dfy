/**
 The delivery picker (views/cloudflare.js) on values: which domains go through a Cloudflare tunnel and
 through which one. A missing id, account or zone is "", which the source's `||` and `!` treat alike.
 */
module TunnelState {
  import opened Basics

  datatype Tunnel = Tunnel(id: string, account: string, connectedHere: bool, isLocal: bool)

  /** The answer of the options request; `unavailable` marks a panel without Cloudflare support. */
  datatype Options = Options(unavailable: bool, connected: bool, error: string, tunnels: seq<Tunnel>,
                             zones: seq<string>, zoneAccounts: map<string, string>)

  /** The picker's state: domains not in `hosts` are direct, `tunnelFor` holds the domains with a tunnel of their own. */
  datatype Delivery = Delivery(domains: seq<string>, hosts: set<string>, tunnelId: string,
                               tunnelFor: map<string, string>, opts: Option<Options>)

  /** What is stored with a website. An empty `tunnels` is left out by the source. */
  datatype Saved = Saved(enabled: bool, tunnelId: string, hostnames: seq<string>, tunnels: map<string, string>)

  // ---------------------------------------------------------------- zones

  predicate InZone(z: string, host: string) {
    host == z || EndsWith(host, "." + z)
  }

  function ZoneOf(zones: seq<string>, host: string): Option<string> {
    if zones == [] then None else
      var best, z := ZoneOf(zones[..|zones| - 1], host), zones[|zones| - 1];
      if InZone(z, host) && (best == None || best.value == "" || |z| > |best.value|) then Some(z) else best
  }

  /** The account the host's zone is in, "" when unknown. */
  function ZoneAccount(opts: Option<Options>, host: string): string {
    if opts == None then "" else
      var zone := ZoneOf(opts.value.zones, host);
      if zone == None || zone.value == "" || zone.value !in opts.value.zoneAccounts then ""
      else opts.value.zoneAccounts[zone.value]
  }

  // ---------------------------------------------------------------- tunnels

  function Find(all: seq<Tunnel>, id: string): Option<Tunnel> {
    if all == [] then None else if all[0].id == id then Some(all[0]) else Find(all[1..], id)
  }

  function OfAccount(all: seq<Tunnel>, account: string): seq<Tunnel> {
    if all == [] then [] else
      (if all[0].account == account then [all[0]] else []) + OfAccount(all[1..], account)
  }

  function FirstConnected(ts: seq<Tunnel>): Option<Tunnel> {
    if ts == [] then None else if ts[0].connectedHere then Some(ts[0]) else FirstConnected(ts[1..])
  }

  function FirstLocal(ts: seq<Tunnel>): Option<Tunnel> {
    if ts == [] then None else if ts[0].isLocal then Some(ts[0]) else FirstLocal(ts[1..])
  }

  function Preferred(ts: seq<Tunnel>): Tunnel
    requires ts != []
  {
    if FirstConnected(ts) != None then FirstConnected(ts).value
    else if FirstLocal(ts) != None then FirstLocal(ts).value
    else ts[0]
  }

  function Candidates(all: seq<Tunnel>, account: string): seq<Tunnel> {
    if account != "" && OfAccount(all, account) != [] then OfAccount(all, account) else all
  }

  function Best(all: seq<Tunnel>, account: string): string {
    var ts := Candidates(all, account);
    if ts == [] then "" else Preferred(ts).id
  }

  predicate Fits(all: seq<Tunnel>, id: string, account: string) {
    var t := Find(all, id);
    t != None && (account == "" || t.value.account == "" || t.value.account == account)
  }

  // ---------------------------------------------------------------- the picker

  function Tunnels(d: Delivery): seq<Tunnel> {
    if d.opts == None then [] else d.opts.value.tunnels
  }

  predicate Usable(d: Delivery) {
    d.opts != None && !d.opts.value.unavailable && (d.opts.value.connected || |d.opts.value.tunnels| > 0)
  }

  function Those(domains: seq<string>, hosts: set<string>): (r: seq<string>)
    ensures forall h :: h in r <==> h in domains && h in hosts
  {
    if domains == [] then [] else
      (if domains[0] in hosts then [domains[0]] else []) + Those(domains[1..], hosts)
  }

  function TunnelHosts(d: Delivery): (r: seq<string>)
    ensures forall h :: h in r <==> h in d.domains && h in d.hosts
  {
    Those(d.domains, d.hosts)
  }

  function Entry(tunnelFor: map<string, string>, h: string): Option<string> {
    if h in tunnelFor then Some(tunnelFor[h]) else None
  }

  function TunnelOf(d: Delivery, h: string): string {
    if h in d.tunnelFor then Or(d.tunnelFor[h], d.tunnelId) else d.tunnelId
  }

  function FirstAccount(d: Delivery): string {
    if TunnelHosts(d) == [] then "" else ZoneAccount(d.opts, TunnelHosts(d)[0])
  }

  /** The website's tunnel: the present one if it can carry the first tunnelled domain. */
  function SiteTunnel(d: Delivery): string {
    if Fits(Tunnels(d), d.tunnelId, FirstAccount(d)) then d.tunnelId
    else Or(Best(Tunnels(d), FirstAccount(d)), d.tunnelId)
  }

  /** What becomes of one tunnelled domain's own entry, given the website's tunnel. */
  function ChooseFor(all: seq<Tunnel>, site: string, account: string, own: Option<string>): Option<string> {
    if own != None && own.value != "" && Fits(all, own.value, account) then own
    else if Fits(all, site, account) then None
    else Some(Best(all, account))
  }

  function Choice(d: Delivery, site: string, h: string): Option<string> {
    if h in TunnelHosts(d) then ChooseFor(Tunnels(d), site, ZoneAccount(d.opts, h), Entry(d.tunnelFor, h))
    else Entry(d.tunnelFor, h)
  }

  /** Entries are kept only for tunnelled hosts and only when they differ from the website's tunnel. */
  function Choices(d: Delivery, site: string): map<string, string> {
    map h | h in d.hosts && Choice(d, site, h) != None && Choice(d, site, h) != Some(site) :: Choice(d, site, h).value
  }

  function Pick(d: Delivery): Delivery {
    if Tunnels(d) == [] then d
    else d.(tunnelId := SiteTunnel(d), tunnelFor := Choices(d, SiteTunnel(d)))
  }

  // ---------------------------------------------------------------- saving and loading

  const OFF := Saved(false, "", [], map[])

  function Payload(d: Delivery): Saved {
    var hs := TunnelHosts(d);
    if hs == [] || TunnelOf(d, hs[0]) == "" then OFF else
      var site := TunnelOf(d, hs[0]);
      Saved(true, site, hs, map h | h in hs && TunnelOf(d, h) != "" && TunnelOf(d, h) != site :: TunnelOf(d, h))
  }

  function SetOf(s: seq<string>): set<string> {
    set h | h in s
  }

  /** The picker state made from what is stored; anything not enabled counts as nothing stored. */
  function Load(domains: seq<string>, cf: Option<Saved>): Delivery {
    var on := if cf != None && cf.value.enabled then cf.value else OFF;
    Delivery(domains, SetOf(on.hostnames), on.tunnelId, on.tunnels, None)
  }

  /** The tunnel the server routes a host through, from what is stored. */
  function RoutedThrough(cf: Saved, h: string): string {
    if h in cf.tunnels then Or(cf.tunnels[h], cf.tunnelId) else cf.tunnelId
  }

  // ---------------------------------------------------------------- why it can't be saved yet

  datatype Verdict =
    | Fine
    | StillChecking
    | OptionsFailed(error: string)
    | NotConnected
    | NoTunnelYet
    | PickTunnelFor(host: string)
    | NotInAccount(missing: seq<string>)
    | OtherAccount(host: string)

  function FirstUnpicked(d: Delivery, hs: seq<string>): Option<string> {
    if hs == [] then None else if TunnelOf(d, hs[0]) == "" then Some(hs[0]) else FirstUnpicked(d, hs[1..])
  }

  predicate ZoneKnown(o: Options, h: string) {
    var zone := ZoneOf(o.zones, h);
    zone != None && zone.value != ""
  }

  function NotZoned(o: Options, hs: seq<string>): seq<string> {
    if hs == [] then [] else (if ZoneKnown(o, hs[0]) then [] else [hs[0]]) + NotZoned(o, hs[1..])
  }

  /** The host's tunnel is known to be in another account than the host. */
  predicate Misplaced(d: Delivery, h: string) {
    var t, account := Find(Tunnels(d), TunnelOf(d, h)), ZoneAccount(d.opts, h);
    t != None && t.value.account != "" && account != "" && account != t.value.account
  }

  function FirstMisplaced(d: Delivery, hs: seq<string>): Option<string> {
    if hs == [] then None else if Misplaced(d, hs[0]) then Some(hs[0]) else FirstMisplaced(d, hs[1..])
  }

  function Validate(d: Delivery): Verdict {
    var hs := TunnelHosts(d);
    if hs == [] then Fine
    else if d.opts == None then StillChecking
    else
      var o := d.opts.value;
      if o.error != "" && o.tunnels == [] then OptionsFailed(o.error)
      else if !Usable(d) then NotConnected
      else if o.tunnels == [] then NoTunnelYet
      else if FirstUnpicked(d, hs) != None then PickTunnelFor(FirstUnpicked(d, hs).value)
      else if !o.connected then Fine
      else if NotZoned(o, hs) != [] then NotInAccount(NotZoned(o, hs))
      else if FirstMisplaced(d, hs) != None then OtherAccount(FirstMisplaced(d, hs).value)
      else Fine
  }

  // ---------------------------------------------------------------- the handlers

  /** A tunnel is chosen on one domain's row; on the first tunnelled domain it is also the website's. */
  function ChooseHost(d: Delivery, h: string, id: string): Delivery {
    var set1 := d.(tunnelFor := d.tunnelFor[h := id]);
    var hs := TunnelHosts(d);
    if hs != [] && h == hs[0] then
      d.(tunnelId := id,
         tunnelFor := map x | x in hs[1..] && TunnelOf(set1, x) != id :: TunnelOf(set1, x))
    else if id == d.tunnelId then d.(tunnelFor := d.tunnelFor - {h})
    else set1
  }

  datatype Step =
    | ToTunnel(host: string)
    | ToDirect(host: string)
    | ChooseForSite(id: string)
    | ChooseForHost(host: string, id: string)
    | Recheck(opts: Options)
    | AddDomain(host: string, tunnelled: bool)
    | RemoveDomain(index: nat)
    | AllToTunnel

  predicate CanStep(d: Delivery, step: Step) {
    match step
    case ChooseForSite(id) => id != ""
    case ChooseForHost(_, id) => id != ""
    case Recheck(o) => NamedTunnels(o.tunnels)
    case AddDomain(host, _) => host !in d.domains
    case RemoveDomain(i) => i < |d.domains|
    case _ => true
  }

  predicate NamedTunnels(all: seq<Tunnel>) {
    forall t | t in all :: t.id != ""
  }

  function After(d: Delivery, step: Step): Delivery
    requires CanStep(d, step)
  {
    match step
    case ToTunnel(h) => Pick(d.(hosts := d.hosts + {h}))
    case ToDirect(h) => d.(hosts := d.hosts - {h})
    case ChooseForSite(id) => d.(tunnelId := id, tunnelFor := map[])
    case ChooseForHost(h, id) => ChooseHost(d, h, id)
    case Recheck(o) => Pick(d.(opts := Some(o)))
    case AddDomain(h, tunnelled) =>
      d.(domains := d.domains + [h], hosts := if tunnelled then d.hosts + {h} else d.hosts)
    case RemoveDomain(i) =>
      d.(domains := d.domains[..i] + d.domains[i + 1..], hosts := d.hosts - {d.domains[i]})
    case AllToTunnel => d.(hosts := d.hosts + SetOf(d.domains))
  }

  predicate CanRun(d: Delivery, steps: seq<Step>)
    decreases |steps|
  {
    steps == [] || (CanStep(d, steps[0]) && CanRun(After(d, steps[0]), steps[1..]))
  }

  function Run(d: Delivery, steps: seq<Step>): Delivery
    requires CanRun(d, steps)
    decreases |steps|
  {
    if steps == [] then d else Run(After(d, steps[0]), steps[1..])
  }
}
