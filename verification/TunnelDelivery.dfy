/** The delivery picker as the source keeps it: one object that its handlers change in place. */
module TunnelDelivery {
  import opened Basics
  import opened TunnelState
  import opened TunnelLaws

  /** The longest zone that the host is in. */
  method LongestZoneOf(zones: seq<string>, host: string) returns (best: Option<string>)
    ensures best == ZoneOf(zones, host)
    ensures LongestZone(zones, host, best)
  {
    hide InZone, LongestZone;
    best := None;
    for i := 0 to |zones|
      invariant best == ZoneOf(zones[..i], host)
    {
      var z := zones[i];
      assert zones[..i + 1][..i] == zones[..i];
      if InZone(z, host) && (best == None || best.value == "" || |z| > |best.value|) {
        best := Some(z);
      }
    }
    assert zones[..|zones|] == zones;
    ZoneIsLongest(zones, host);
  }

  class Picker {
    var domains: seq<string>
    var hosts: set<string>
    var tunnelId: string
    var tunnelFor: map<string, string>
    var opts: Option<Options>

    function View(): Delivery
      reads this
    {
      Delivery(domains, hosts, tunnelId, tunnelFor, opts)
    }

    /** The picker for what is stored with a website. */
    constructor (domains: seq<string>, cf: Option<Saved>)
      ensures View() == Load(domains, cf)
      ensures InOrder(View()) <==>
                (cf != None && cf.value.enabled ==> forall h | h in cf.value.tunnels :: cf.value.tunnels[h] != cf.value.tunnelId)
    {
      this.domains := domains;
      if cf != None && cf.value.enabled {
        hosts, tunnelId, tunnelFor := SetOf(cf.value.hostnames), cf.value.tunnelId, cf.value.tunnels;
      } else {
        hosts, tunnelId, tunnelFor := {}, "", map[];
      }
      opts := None;
      new;
      LoadInOrderIff(domains, cf);
    }

    method PickDefaultTunnel()
      modifies `tunnelId, `tunnelFor
      ensures View() == Pick(old(View()))
    {
      hide Fits, Best, TunnelHosts, ZoneAccount;
      ghost var before := View();
      var all := Tunnels(View());
      if all == [] {
        return;
      }
      var hs := TunnelHosts(View());
      var account := if hs == [] then "" else ZoneAccount(opts, hs[0]);
      if !Fits(all, tunnelId, account) {
        tunnelId := Or(Best(all, account), tunnelId);
      }
      assert tunnelId == SiteTunnel(before);
      ChooseForEach(before, hs);
      DropRedundant(before);
    }

    /** Gives each tunnelled domain that needs one an entry of its own. */
    method ChooseForEach(ghost before: Delivery, hs: seq<string>)
      requires hs == TunnelHosts(before) && opts == before.opts && tunnelFor == before.tunnelFor
      modifies `tunnelFor
      ensures forall h :: Entry(tunnelFor, h) == Choice(before, tunnelId, h)
    {
      hide Fits, Best, TunnelHosts, ZoneAccount;
      var all := Tunnels(View());
      assert all == Tunnels(before);
      for i := 0 to |hs|
        invariant forall h | h in hs[..i] :: Entry(tunnelFor, h) == Choice(before, tunnelId, h)
        invariant forall h | h !in hs[..i] :: Entry(tunnelFor, h) == Entry(before.tunnelFor, h)
      {
        var h := hs[i];
        assert hs[..i + 1] == hs[..i] + [h];
        var account := ZoneAccount(opts, h);
        if h in tunnelFor && tunnelFor[h] != "" && Fits(all, tunnelFor[h], account) {
          continue;
        }
        tunnelFor := tunnelFor - {h};
        if !Fits(all, tunnelId, account) {
          tunnelFor := tunnelFor[h := Best(all, account)];
        }
      }
      assert hs[..|hs|] == hs;
    }

    /** Removes the entries of domains that are not tunnelled and those that repeat the website's tunnel. */
    method DropRedundant(ghost before: Delivery)
      requires hosts == before.hosts
      requires forall h :: Entry(tunnelFor, h) == Choice(before, tunnelId, h)
      modifies `tunnelFor
      ensures tunnelFor == Choices(before, tunnelId)
    {
      hide Choice;
      var keys := tunnelFor.Keys;
      while keys != {}
        invariant keys <= tunnelFor.Keys
        invariant forall h | h in tunnelFor :: Some(tunnelFor[h]) == Choice(before, tunnelId, h)
        invariant forall h | h in tunnelFor && h !in keys :: h in hosts && tunnelFor[h] != tunnelId
        invariant forall h | h in hosts && Choice(before, tunnelId, h) != None && Choice(before, tunnelId, h) != Some(tunnelId) ::
                    h in tunnelFor
        decreases |keys|
      {
        var h :| h in keys;
        keys := keys - {h};
        if h !in hosts || tunnelFor[h] == tunnelId {
          tunnelFor := tunnelFor - {h};
        }
      }
    }

    /** What is stored with the website. */
    method DeliveryPayload() returns (saved: Saved)
      ensures saved == Payload(View())
      ensures Payload(Load(domains, Some(saved))) == saved
    {
      hide TunnelHosts, TunnelOf, Load;
      PayloadIsStable(View());
      var hostnames := TunnelHosts(View());
      var site := if hostnames != [] then TunnelOf(View(), hostnames[0]) else "";
      if hostnames == [] || site == "" {
        return OFF;
      }
      var tunnels: map<string, string> := map[];
      for i := 0 to |hostnames|
        invariant forall h :: h in tunnels <==> h in hostnames[..i] && TunnelOf(View(), h) != "" && TunnelOf(View(), h) != site
        invariant forall h | h in tunnels :: tunnels[h] == TunnelOf(View(), h)
      {
        var h := hostnames[i];
        assert hostnames[..i + 1] == hostnames[..i] + [h];
        if TunnelOf(View(), h) != "" && TunnelOf(View(), h) != site {
          tunnels := tunnels[h := TunnelOf(View(), h)];
        }
      }
      assert hostnames[..|hostnames|] == hostnames;
      saved := Saved(true, site, hostnames, tunnels);
      assert saved.tunnels == Payload(View()).tunnels;
    }

    /** Why this choice can't be saved yet; a fine one is saved without loss. */
    method ValidateDelivery() returns (verdict: Verdict)
      ensures verdict == Validate(View())
      ensures verdict == Fine ==> SameDelivery(View(), Load(domains, Some(Payload(View()))))
    {
      hide TunnelHosts, TunnelOf, Load, Payload, SameDelivery, Misplaced, NotZoned, FirstUnpicked;
      var d := View();
      if Validate(d) == Fine {
        ValidIsSaved(d);
      }
      var hs := TunnelHosts(d);
      if hs == [] {
        return Fine;
      }
      if opts == None {
        return StillChecking;
      }
      var o := opts.value;
      if o.error != "" && o.tunnels == [] {
        return OptionsFailed(o.error);
      }
      if !Usable(d) {
        return NotConnected;
      }
      if o.tunnels == [] {
        return NoTunnelYet;
      }
      var unpicked := FirstUnpicked(d, hs);
      if unpicked != None {
        return PickTunnelFor(unpicked.value);
      }
      if o.connected {
        var missing := NotZoned(o, hs);
        if missing != [] {
          return NotInAccount(missing);
        }
        for i := 0 to |hs|
          invariant FirstMisplaced(d, hs) == FirstMisplaced(d, hs[i..])
        {
          assert hs[i..][0] == hs[i] && hs[i..][1..] == hs[i + 1..];
          if Misplaced(d, hs[i]) {
            return OtherAccount(hs[i]);
          }
        }
        assert hs[|hs|..] == [];
      }
      return Fine;
    }

    /** The Direct / Tunnel switch on a domain's row. */
    method SwitchMode(host: string, tunnel: bool)
      modifies `hosts, `tunnelId, `tunnelFor
      ensures View() == After(old(View()), if tunnel then ToTunnel(host) else ToDirect(host))
      ensures old(InOrder(View())) ==> InOrder(View())
    {
      if InOrder(View()) {
        StepInOrder(View(), if tunnel then ToTunnel(host) else ToDirect(host));
      }
      if tunnel {
        hosts := hosts + {host};
        PickDefaultTunnel();
      } else {
        hosts := hosts - {host};
      }
    }

    /** The tunnel chosen for the whole website. */
    method ChooseSiteTunnel(id: string)
      requires CanStep(View(), ChooseForSite(id))
      modifies `tunnelId, `tunnelFor
      ensures View() == After(old(View()), ChooseForSite(id))
      ensures old(InOrder(View())) ==> InOrder(View())
    {
      if InOrder(View()) {
        StepInOrder(View(), ChooseForSite(id));
      }
      tunnelId, tunnelFor := id, map[];
    }

    /** The tunnel chosen on a domain's row. */
    method ChooseHostTunnel(h: string, id: string)
      requires CanStep(View(), ChooseForHost(h, id))
      modifies `tunnelId, `tunnelFor
      ensures View() == After(old(View()), ChooseForHost(h, id))
      ensures h in TunnelHosts(View()) ==> TunnelOf(View(), h) == id
      ensures old(InOrder(View())) ==> InOrder(View())
    {
      hide TunnelHosts, TunnelOf, InOrder;
      if InOrder(View()) {
        StepInOrder(View(), ChooseForHost(h, id));
      }
      ghost var before := View();
      if h in TunnelHosts(before) {
        ChosenIsUsed(before, h, id);
      }
      tunnelFor := tunnelFor[h := id];
      SameHosts(View(), before);
      var hs := TunnelHosts(View());
      if hs != [] && h == hs[0] {
        var others := map x | x in hs[1..] :: TunnelOf(View(), x);
        tunnelId := id;
        tunnelFor := map x | x in others && others[x] != tunnelId :: others[x];
      } else if id == tunnelId {
        tunnelFor := tunnelFor - {h};
      }
      assert tunnelFor == ChooseHost(before, h, id).tunnelFor;
      SameHosts(View(), before);
    }

    /** New options arrive, on opening the page or on "Check again". */
    method OptionsArrive(o: Options)
      requires CanStep(View(), Recheck(o))
      modifies `opts, `tunnelId, `tunnelFor
      ensures View() == After(old(View()), Recheck(o))
      ensures old(InOrder(View())) ==> InOrder(View())
    {
      if InOrder(View()) {
        StepInOrder(View(), Recheck(o));
      }
      opts := Some(o);
      PickDefaultTunnel();
    }

    /** The website is switched to Cloudflare delivery with no domain on a tunnel yet: all of them go there. */
    method TunnelAll()
      modifies `hosts
      ensures View() == if old(hosts) == {} then After(old(View()), AllToTunnel) else old(View())
      ensures old(InOrder(View())) ==> InOrder(View())
    {
      if hosts == {} {
        hosts := hosts + SetOf(domains);
      }
    }

    /** A domain is added to the website's list, on the tunnel when all the others are. */
    method Add(host: string, tunnelled: bool)
      modifies `domains, `hosts
      ensures View() == if host in old(domains) then old(View()) else After(old(View()), AddDomain(host, tunnelled))
      ensures old(InOrder(View())) ==> InOrder(View())
    {
      if InOrder(View()) && host !in domains {
        StepInOrder(View(), AddDomain(host, tunnelled));
      }
      if host !in domains {
        domains := domains + [host];
        if tunnelled {
          hosts := hosts + {host};
        }
      }
    }

    method Remove(i: nat)
      requires CanStep(View(), RemoveDomain(i))
      modifies `domains, `hosts
      ensures View() == After(old(View()), RemoveDomain(i))
      ensures old(InOrder(View())) ==> InOrder(View())
    {
      if InOrder(View()) {
        StepInOrder(View(), RemoveDomain(i));
      }
      var d := domains[i];
      domains := domains[..i] + domains[i + 1..];
      hosts := hosts - {d};
    }
  }
}
