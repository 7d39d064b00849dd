/** What the delivery picker promises: zones, default tunnels, local choices, and saving without loss. */
module TunnelLaws {
  import opened Basics
  import opened TunnelState

  // ---------------------------------------------------------------- zones

  ghost predicate LongestZone(zones: seq<string>, host: string, zone: Option<string>) {
    match zone
    case None => forall z | z in zones :: !InZone(z, host)
    case Some(best) => best in zones && InZone(best, host) && forall z | z in zones && InZone(z, host) :: |z| <= |best|
  }

  lemma {:induction false} ZoneIsLongest(zones: seq<string>, host: string)
    ensures LongestZone(zones, host, ZoneOf(zones, host))
  {
    hide InZone;
    if zones != [] {
      var shorter := zones[..|zones| - 1];
      assert zones == shorter + [zones[|zones| - 1]];
      ZoneIsLongest(shorter, host);
    }
  }

  lemma SameLengthSameZone(a: string, b: string, host: string)
    requires InZone(a, host) && InZone(b, host) && |a| == |b|
    ensures a == b
  {
    if host != a {
      assert host[|host| - |a|..] == ("." + a)[1..] == a;
    }
    if host != b {
      assert host[|host| - |b|..] == ("." + b)[1..] == b;
    }
  }

  /** The longest zone is unique, so neither the order of the zones nor repeated ones matter. */
  lemma ZoneOrderIsIrrelevant(zones: seq<string>, others: seq<string>, host: string)
    requires forall z :: z in zones <==> z in others
    ensures ZoneOf(zones, host) == ZoneOf(others, host)
  {
    hide InZone, ZoneOf;
    ZoneIsLongest(zones, host);
    ZoneIsLongest(others, host);
    var a, b := ZoneOf(zones, host), ZoneOf(others, host);
    if a != None && b != None {
      SameLengthSameZone(a.value, b.value, host);
    }
  }

  /** A zone a host is in: the zone itself or something under it; the longest of the listed ones decides its account. */
  ghost predicate ZoneFor(zones: seq<string>, host: string, z: string) {
    && z in zones && (host == z || EndsWith(host, "." + z))
    && forall y | y in zones && (host == y || EndsWith(host, "." + y)) :: |y| <= |z|
  }

  ghost predicate Zoned(o: Options, host: string) {
    exists z :: z in o.zones && z != "" && (host == z || EndsWith(host, "." + z))
  }

  /** A host's account is the one listed for its longest zone, and unknown without one. */
  lemma AccountOfZone(o: Options, host: string)
    ensures forall z | ZoneFor(o.zones, host, z) ::
              ZoneAccount(Some(o), host) == if z != "" && z in o.zoneAccounts then o.zoneAccounts[z] else ""
    ensures (forall z | z in o.zones :: !InZone(z, host)) ==> ZoneAccount(Some(o), host) == ""
    ensures ZoneKnown(o, host) <==> Zoned(o, host)
  {
    hide ZoneOf, EndsWith;
    ZoneIsLongest(o.zones, host);
    forall z | ZoneFor(o.zones, host, z) ensures ZoneOf(o.zones, host) == Some(z) {
      assert InZone(z, host);
      var best := ZoneOf(o.zones, host).value;
      SameLengthSameZone(z, best, host);
    }
  }

  // ---------------------------------------------------------------- tunnels

  ghost predicate DistinctIds(all: seq<Tunnel>) {
    NamedTunnels(all) && forall s, t | s in all && t in all && s.id == t.id :: s == t
  }

  lemma {:induction false} FindIs(all: seq<Tunnel>, id: string)
    ensures Find(all, id) == None ==> forall t | t in all :: t.id != id
    ensures Find(all, id) != None ==> Find(all, id).value in all && Find(all, id).value.id == id
  {
    if all != [] {
      FindIs(all[1..], id);
    }
  }

  lemma {:induction false} OfAccountIs(all: seq<Tunnel>, account: string)
    ensures forall t :: t in OfAccount(all, account) <==> t in all && t.account == account
  {
    if all != [] {
      OfAccountIs(all[1..], account);
    }
  }

  /** A tunnel of the account, or any when the account is unknown or has none. */
  predicate Eligible(all: seq<Tunnel>, account: string, t: Tunnel) {
    account == "" || t.account == account || forall x | x in all :: x.account != account
  }

  /** Connected on this server beats run by this panel, which beats neither. */
  function Rank(t: Tunnel): nat {
    if t.connectedHere then 2 else if t.isLocal then 1 else 0
  }

  /** `t` is the first of those that rank highest. */
  ghost predicate FirstBest(ts: seq<Tunnel>, t: Tunnel) {
    && (forall x | x in ts :: Rank(x) <= Rank(t))
    && exists i :: 0 <= i < |ts| && ts[i] == t && forall k | 0 <= k < i :: Rank(ts[k]) < Rank(t)
  }

  /** The same among the tunnels of one account. */
  ghost predicate FirstBestOf(all: seq<Tunnel>, account: string, t: Tunnel) {
    && (forall x | x in all && x.account == account :: Rank(x) <= Rank(t))
    && t.account == account
    && exists i :: 0 <= i < |all| && all[i] == t && forall k | 0 <= k < i && all[k].account == account :: Rank(all[k]) < Rank(t)
  }

  lemma FirstBestHead(ts: seq<Tunnel>)
    requires ts != [] && forall x | x in ts[1..] :: Rank(x) <= Rank(ts[0])
    ensures FirstBest(ts, ts[0])
  {
    hide Rank;
    assert ts == [ts[0]] + ts[1..];
  }

  lemma FirstBestTail(ts: seq<Tunnel>, t: Tunnel)
    requires ts != [] && FirstBest(ts[1..], t) && Rank(ts[0]) < Rank(t)
    ensures FirstBest(ts, t)
  {
    hide Rank;
    var rest := ts[1..];
    assert ts == [ts[0]] + rest;
    var i :| 0 <= i < |rest| && rest[i] == t && forall k | 0 <= k < i :: Rank(rest[k]) < Rank(t);
    assert ts[i + 1] == t;
    forall k | 0 <= k < i + 1 ensures Rank(ts[k]) < Rank(t) {
      assert k > 0 ==> ts[k] == rest[k - 1];
    }
  }

  lemma {:induction false} PreferredRank(ts: seq<Tunnel>)
    requires ts != []
    ensures FirstConnected(ts) != None ==> FirstConnected(ts).value.connectedHere
    ensures FirstLocal(ts) != None ==> FirstLocal(ts).value.isLocal && FirstLocal(ts).value in ts
    ensures FirstConnected(ts) == None ==> forall t | t in ts :: !t.connectedHere
    ensures FirstLocal(ts) == None ==> forall t | t in ts :: !t.isLocal
  {
    if |ts| > 1 {
      PreferredRank(ts[1..]);
    }
  }

  lemma {:induction false} PreferredIsFirstBest(ts: seq<Tunnel>)
    requires ts != []
    ensures FirstBest(ts, Preferred(ts))
  {
    if |ts| == 1 {
      assert FirstConnected(ts[1..]) == None && FirstLocal(ts[1..]) == None;
      FirstBestHead(ts);
    } else {
      hide FirstBest;
      PreferredIsFirstBest(ts[1..]);
      PreferredRank(ts[1..]);
      var t := Preferred(ts[1..]);
      if Rank(ts[0]) >= Rank(t) {
        FirstBestAbove(ts[1..], t, Rank(ts[0]));
        FirstBestHead(ts);
      } else {
        FirstBestTail(ts, t);
      }
    }
  }

  lemma FirstBestAbove(ts: seq<Tunnel>, t: Tunnel, r: nat)
    requires FirstBest(ts, t) && Rank(t) <= r
    ensures forall x | x in ts :: Rank(x) <= r
  {
    hide Rank;
  }

  lemma FirstBestOfHead(all: seq<Tunnel>, account: string)
    requires all != [] && all[0].account == account && forall x | x in all && x.account == account :: Rank(x) <= Rank(all[0])
    ensures FirstBestOf(all, account, all[0])
  {
    hide Rank;
  }

  lemma FirstBestOfTail(all: seq<Tunnel>, account: string, t: Tunnel)
    requires all != [] && FirstBestOf(all[1..], account, t) && (all[0].account == account ==> Rank(all[0]) < Rank(t))
    ensures FirstBestOf(all, account, t)
  {
    hide Rank;
    var rest := all[1..];
    assert all == [all[0]] + rest;
    var i :| 0 <= i < |rest| && rest[i] == t && forall k | 0 <= k < i && rest[k].account == account :: Rank(rest[k]) < Rank(t);
    assert all[i + 1] == t;
    forall k | 0 <= k < i + 1 && all[k].account == account ensures Rank(all[k]) < Rank(t) {
      assert k > 0 ==> all[k] == rest[k - 1];
    }
  }

  lemma FirstBestOfRest(ts: seq<Tunnel>, t: Tunnel)
    requires ts != [] && FirstBest(ts, t) && ts[0] != t
    ensures FirstBest(ts[1..], t) && Rank(ts[0]) < Rank(t)
  {
    hide Rank;
    var i :| 0 <= i < |ts| && ts[i] == t && forall k | 0 <= k < i :: Rank(ts[k]) < Rank(t);
    assert ts[1..][i - 1] == t && forall k | 0 <= k < i - 1 :: ts[1..][k] == ts[k + 1];
    assert Rank(ts[0]) < Rank(t);
  }

  /** The first of an account's highest tunnels is the first among all that the account has. */
  lemma {:induction false} FirstBestOfAccount(all: seq<Tunnel>, account: string, t: Tunnel)
    requires FirstBest(OfAccount(all, account), t)
    ensures FirstBestOf(all, account, t)
  {
    var own := OfAccount(all, account);
    OfAccountIs(all, account);
    if all[0].account != account {
      assert own == OfAccount(all[1..], account);
      hide FirstBest, FirstBestOf, Rank;
      FirstBestOfAccount(all[1..], account, t);
      FirstBestOfTail(all, account, t);
    } else {
      assert own[0] == all[0] && own[1..] == OfAccount(all[1..], account);
      if own[0] == t {
        FirstBestOfHead(all, account);
      } else {
        hide FirstBest, FirstBestOf, Rank;
        FirstBestOfRest(own, t);
        FirstBestOfAccount(all[1..], account, t);
        FirstBestOfTail(all, account, t);
      }
    }
  }

  /** The suggested tunnel is the first of the best: none that may be suggested ranks higher, and none before it as high. */
  lemma BestIs(all: seq<Tunnel>, account: string) returns (t: Tunnel)
    requires all != []
    ensures t in all && Best(all, account) == t.id && Eligible(all, account, t)
    ensures forall x | x in all && Eligible(all, account, x) :: Rank(x) <= Rank(t)
    ensures exists i :: 0 <= i < |all| && all[i] == t && forall k | 0 <= k < i && Eligible(all, account, all[k]) :: Rank(all[k]) < Rank(t)
  {
    hide OfAccount, Preferred, Rank;
    var ts := Candidates(all, account);
    CandidatesAre(all, account);
    PreferredIsFirstBest(ts);
    t := Preferred(ts);
    if account != "" && OfAccount(all, account) != [] {
      FirstBestOfAccount(all, account, t);
      assert Eligible(all, account, t);
      assert forall x | x in all && Eligible(all, account, x) :: x.account == account;
      var i :| 0 <= i < |all| && all[i] == t && forall k | 0 <= k < i && all[k].account == account :: Rank(all[k]) < Rank(t);
      assert all[i] == t;
      forall k | 0 <= k < i && Eligible(all, account, all[k]) ensures Rank(all[k]) < Rank(t) {
        assert all[k] in all;
      }
    } else {
      var i :| 0 <= i < |all| && all[i] == t && forall k | 0 <= k < i :: Rank(all[k]) < Rank(t);
      assert all[i] == t;
    }
  }

  lemma CandidatesAre(all: seq<Tunnel>, account: string)
    requires all != []
    ensures Candidates(all, account) != []
    ensures forall t :: t in Candidates(all, account) <==> t in all && Eligible(all, account, t)
  {
    OfAccountIs(all, account);
    if account != "" {
      if OfAccount(all, account) != [] {
        assert OfAccount(all, account)[0] in all;
      } else {
        assert forall y | y in all :: y !in OfAccount(all, account);
      }
    }
  }

  /** An account with a tunnel of its own gets one that can carry it. */
  lemma OwnAccountFits(all: seq<Tunnel>, account: string)
    requires DistinctIds(all) && all != []
    requires account == "" || exists t :: t in all && t.account == account
    ensures Best(all, account) != "" && Fits(all, Best(all, account), account)
  {
    hide Best;
    var t := BestIs(all, account);
    FindIs(all, t.id);
  }

  lemma BestExists(all: seq<Tunnel>, account: string)
    requires NamedTunnels(all) && all != []
    ensures Best(all, account) != "" && Find(all, Best(all, account)) != None
  {
    hide Best, Find;
    var t := BestIs(all, account);
    FindIs(all, t.id);
  }

  lemma FittingHasName(all: seq<Tunnel>, id: string, account: string)
    requires NamedTunnels(all) && Fits(all, id, account)
    ensures id != "" && Find(all, id) != None
  {
    hide Find;
    FindIs(all, id);
  }

  // ---------------------------------------------------------------- default tunnels

  lemma SiteTunnelIs(d: Delivery)
    requires NamedTunnels(Tunnels(d)) && Tunnels(d) != []
    ensures SiteTunnel(d) != "" && Find(Tunnels(d), SiteTunnel(d)) != None
  {
    hide Best, Fits, Tunnels, FirstAccount, NamedTunnels;
    if Fits(Tunnels(d), d.tunnelId, FirstAccount(d)) {
      FittingHasName(Tunnels(d), d.tunnelId, FirstAccount(d));
    } else {
      BestExists(Tunnels(d), FirstAccount(d));
    }
  }

  /** The website's present tunnel can carry the first tunnelled domain, or no domain is tunnelled. */
  predicate CarriesFirst(d: Delivery) {
    var t, hs := Find(Tunnels(d), d.tunnelId), TunnelHosts(d);
    t != None && (hs == [] || ZoneAccount(d.opts, hs[0]) in {"", t.value.account} || t.value.account == "")
  }

  /**
   The website keeps its tunnel when that is there and can carry the first tunnelled domain; otherwise it
   gets the one suggested for that domain's account.
   */
  lemma SiteTunnelKept(d: Delivery)
    requires Tunnels(d) != []
    ensures CarriesFirst(d) ==> Pick(d).tunnelId == d.tunnelId
    ensures !CarriesFirst(d) ==>
              var best := Best(Tunnels(d), if TunnelHosts(d) == [] then "" else ZoneAccount(d.opts, TunnelHosts(d)[0]));
              && Pick(d).tunnelId == (if best != "" then best else d.tunnelId)
              && (NamedTunnels(Tunnels(d)) ==> best != "")
  {
    hide Best, ZoneAccount, TunnelHosts, Find, Choices;
    if NamedTunnels(Tunnels(d)) {
      BestExists(Tunnels(d), FirstAccount(d));
    }
  }

  lemma SiteIsPicked(d: Delivery)
    requires Tunnels(d) != []
    ensures Pick(d).tunnelId == SiteTunnel(d)
  {
    hide SiteTunnel, Choices;
  }

  /** The domain's own choice, when it has one that can carry it. */
  predicate OwnFits(d: Delivery, h: string) {
    h in d.tunnelFor && d.tunnelFor[h] != "" && Fits(Tunnels(d), d.tunnelFor[h], ZoneAccount(d.opts, h))
  }

  /** The domain's own fitting choice, else the website's tunnel if that fits, else the best there is. */
  lemma PickedTunnel(d: Delivery, h: string)
    requires NamedTunnels(Tunnels(d)) && Tunnels(d) != [] && h in TunnelHosts(d)
    ensures var account := ZoneAccount(d.opts, h);
            TunnelOf(Pick(d), h) ==
              if OwnFits(d, h) then d.tunnelFor[h]
              else if Fits(Tunnels(d), Pick(d).tunnelId, account) then Pick(d).tunnelId
              else Best(Tunnels(d), account)
  {
    SiteIsPicked(d);
    hide SiteTunnel, ZoneAccount, Tunnels, TunnelHosts, Fits, Best, NamedTunnels;
    BestExists(Tunnels(d), ZoneAccount(d.opts, h));
  }

  /**
   After the defaults are picked a tunnelled domain's tunnel can carry it exactly when its own choice
   could, or the website's tunnel can, or the best tunnel for its account can.
   */
  lemma PickFits(d: Delivery, h: string)
    requires NamedTunnels(Tunnels(d)) && Tunnels(d) != [] && h in TunnelHosts(d)
    ensures TunnelOf(Pick(d), h) != "" && Find(Tunnels(d), TunnelOf(Pick(d), h)) != None
    ensures Fits(Tunnels(d), TunnelOf(Pick(d), h), ZoneAccount(d.opts, h)) <==> CanBeCarried(d, h)
  {
    hide SiteTunnel, ZoneAccount, Tunnels, TunnelHosts, Fits, Best, NamedTunnels, Pick, TunnelOf, Find;
    var all, account := Tunnels(d), ZoneAccount(d.opts, h);
    PickedTunnel(d, h);
    BestExists(all, account);
    SiteTunnelIs(d);
    SiteIsPicked(d);
    if OwnFits(d, h) {
      FittingHasName(all, d.tunnelFor[h], account);
    }
  }

  predicate CanBeCarried(d: Delivery, h: string) {
    var account := ZoneAccount(d.opts, h);
    OwnFits(d, h) || Fits(Tunnels(d), Pick(d).tunnelId, account) || Fits(Tunnels(d), Best(Tunnels(d), account), account)
  }

  /** A tunnelled domain gets a tunnel that can carry it whenever its account has one, or its account is unknown. */
  lemma PickServesEveryAccount(d: Delivery, h: string)
    requires DistinctIds(Tunnels(d)) && Tunnels(d) != [] && h in TunnelHosts(d)
    requires ZoneAccount(d.opts, h) == "" || exists t :: t in Tunnels(d) && t.account == ZoneAccount(d.opts, h)
    ensures CanBeCarried(d, h) && Fits(Tunnels(d), TunnelOf(Pick(d), h), ZoneAccount(d.opts, h))
  {
    hide SiteTunnel, ZoneAccount, Tunnels, TunnelHosts, Fits, Best, Pick, TunnelOf, Find;
    PickFits(d, h);
    OwnAccountFits(Tunnels(d), ZoneAccount(d.opts, h));
  }

  /** The tunnel the domain ends up with was there before, and no account is known for it. */
  predicate KeepsUnknown(d: Delivery, h: string) {
    var kept := if OwnFits(d, h) then d.tunnelFor[h] else Pick(d).tunnelId;
    Fits(Tunnels(d), kept, ZoneAccount(d.opts, h)) && Find(Tunnels(d), kept).value.account == ""
  }

  /**
   With a tunnel in its account a domain ends up with one of that account exactly unless its own choice,
   or else the website's tunnel, is one whose account is unknown: that passes for fitting and is kept.
   */
  lemma OwnAccountIff(d: Delivery, h: string)
    requires DistinctIds(Tunnels(d)) && h in TunnelHosts(d) && ZoneAccount(d.opts, h) != ""
    requires exists t :: t in Tunnels(d) && t.account == ZoneAccount(d.opts, h)
    ensures var t := Find(Tunnels(d), TunnelOf(Pick(d), h));
            t != None && (t.value.account == ZoneAccount(d.opts, h) <==> !KeepsUnknown(d, h))
  {
    hide SiteTunnel, ZoneAccount, Tunnels, TunnelHosts, Best, Pick, TunnelOf, Find;
    var all, account := Tunnels(d), ZoneAccount(d.opts, h);
    PickedTunnel(d, h);
    PickFits(d, h);
    var t := BestIs(all, account);
    FindIs(all, t.id);
  }

  /** A website tunnel of unknown account, a domain in account "a", and a tunnel in account "a". */
  function UnknownKept(): Delivery {
    var all := [Tunnel("t", "", true, true), Tunnel("u", "a", true, true)];
    Delivery(["h"], {"h"}, "t", map[], Some(Options(false, true, "", all, ["h"], map["h" := "a"])))
  }

  lemma UnknownAccountIsKept()
    ensures var d := UnknownKept();
            ZoneAccount(d.opts, "h") == "a" && TunnelOf(Pick(d), "h") == "t" && Find(Tunnels(d), "t").value.account == ""
  {
    var d := UnknownKept();
    var all := Tunnels(d);
    assert ["h"][..0] == [];
    assert InZone("h", "h");
    assert ZoneOf(["h"], "h") == Some("h");
    assert ["h"][1..] == [];
    assert TunnelHosts(d) == ["h"];
    assert Find(all, "t") == Some(all[0]);
    PickedTunnel(d, "h");
  }

  /** A domain whose tunnel can carry it keeps it, unless it only followed a website's tunnel that is replaced. */
  lemma PickKeepsGoodChoice(d: Delivery, h: string)
    requires NamedTunnels(Tunnels(d)) && h in TunnelHosts(d)
    requires Fits(Tunnels(d), TunnelOf(d, h), ZoneAccount(d.opts, h))
    requires OwnFits(d, h) || CarriesFirst(d)
    ensures TunnelOf(Pick(d), h) == TunnelOf(d, h)
  {
    hide SiteTunnel, ZoneAccount, Tunnels, TunnelHosts, Fits, Best, NamedTunnels, CarriesFirst;
    if Tunnels(d) != [] {
      PickedTunnel(d, h);
      SiteTunnelKept(d);
    }
  }

  /** Only tunnelled hosts keep an entry, and none that repeats the website's tunnel. */
  ghost predicate NothingRedundant(d: Delivery) {
    forall h | h in d.tunnelFor :: h in d.hosts && d.tunnelFor[h] != d.tunnelId
  }

  lemma ChoiceIsStable(all: seq<Tunnel>, site: string, account: string, own: Option<string>)
    ensures var c := ChooseFor(all, site, account, own);
            var kept := if c == Some(site) then None else c;
            var again := ChooseFor(all, site, account, kept);
            (if again == Some(site) then None else again) == kept
  {
    hide Fits, Best;
  }

  lemma SiteTunnelIsStable(d: Delivery, tunnelFor: map<string, string>)
    ensures SiteTunnel(d.(tunnelId := SiteTunnel(d), tunnelFor := tunnelFor)) == SiteTunnel(d)
  {
    hide Fits, Best, TunnelHosts, ZoneAccount;
    var e := d.(tunnelId := SiteTunnel(d), tunnelFor := tunnelFor);
    SameHosts(e, d);
    assert Tunnels(e) == Tunnels(d) && FirstAccount(e) == FirstAccount(d);
  }

  /** Picking again changes nothing, whatever the state and the options are. */
  lemma PickIdempotent(d: Delivery)
    ensures Pick(Pick(d)) == Pick(d)
    ensures Tunnels(d) != [] ==> NothingRedundant(Pick(d))
  {
    hide Fits, Best, TunnelHosts, ZoneAccount, ChooseFor, SiteTunnel;
    if Tunnels(d) != [] {
      var site, p := SiteTunnel(d), Pick(d);
      SiteTunnelIsStable(d, Choices(d, site));
      assert TunnelHosts(p) == TunnelHosts(d) by { assert p.domains == d.domains && p.hosts == d.hosts; SameHosts(p, d); }
      assert Choices(p, site) == Choices(d, site) by {
        forall h | h in d.hosts
          ensures (if Choice(p, site, h) == Some(site) then None else Choice(p, site, h)) ==
                  (if Choice(d, site, h) == Some(site) then None else Choice(d, site, h))
        {
          ChoiceIsStable(Tunnels(d), site, ZoneAccount(d.opts, h), Entry(d.tunnelFor, h));
        }
      }
    }
  }

  lemma SameHosts(p: Delivery, d: Delivery)
    requires p.domains == d.domains && p.hosts == d.hosts
    ensures TunnelHosts(p) == TunnelHosts(d)
  {
  }

  // ---------------------------------------------------------------- what may be saved

  lemma {:induction false} FirstUnpickedIs(d: Delivery, hs: seq<string>)
    ensures FirstUnpicked(d, hs) == None <==> forall h | h in hs :: TunnelOf(d, h) != ""
  {
    if hs != [] {
      FirstUnpickedIs(d, hs[1..]);
      assert hs == [hs[0]] + hs[1..];
    }
  }

  lemma {:induction false} NotZonedIs(o: Options, hs: seq<string>)
    ensures forall h :: h in NotZoned(o, hs) <==> h in hs && !ZoneKnown(o, h)
  {
    hide ZoneKnown;
    if hs != [] {
      NotZonedIs(o, hs[1..]);
      assert hs == [hs[0]] + hs[1..];
    }
  }

  lemma {:induction false} NotZonedAre(o: Options, hs: seq<string>, outside: set<string>)
    requires forall h | h in hs :: h in outside <==> !ZoneKnown(o, h)
    ensures NotZoned(o, hs) == Those(hs, outside)
  {
    hide ZoneKnown;
    if hs != [] {
      NotZonedAre(o, hs[1..], outside);
    }
  }

  lemma {:induction false} FirstMisplacedIs(d: Delivery, hs: seq<string>)
    ensures FirstMisplaced(d, hs) == None <==> forall h | h in hs :: !Misplaced(d, h)
  {
    hide Misplaced;
    if hs != [] {
      FirstMisplacedIs(d, hs[1..]);
      assert hs == [hs[0]] + hs[1..];
    }
  }

  /** A tunnelled domain that may be saved: it has a tunnel, is in a zone, and no two known accounts differ. */
  ghost predicate Savable(d: Delivery, o: Options, h: string) {
    var t := Find(o.tunnels, TunnelOf(d, h));
    && TunnelOf(d, h) != ""
    && (o.connected ==>
          && Zoned(o, h)
          && (t != None ==> t.value.account == "" || ZoneAccount(Some(o), h) in {"", t.value.account}))
  }

  lemma SavableIs(d: Delivery, h: string)
    requires d.opts != None
    ensures Savable(d, d.opts.value, h) <==>
              TunnelOf(d, h) != "" && (d.opts.value.connected ==> ZoneKnown(d.opts.value, h) && !Misplaced(d, h))
  {
    hide ZoneOf, TunnelOf, Find, EndsWith, ZoneAccount;
    AccountOfZone(d.opts.value, h);
  }

  /** Exactly when a delivery choice may be saved. */
  lemma ValidIff(d: Delivery)
    ensures Validate(d) == Fine <==>
              TunnelHosts(d) == [] ||
              (d.opts != None && !d.opts.value.unavailable && d.opts.value.tunnels != [] &&
               forall h | h in TunnelHosts(d) :: Savable(d, d.opts.value, h))
  {
    hide TunnelHosts, TunnelOf, ZoneKnown, Misplaced, FirstUnpicked, NotZoned, FirstMisplaced, Savable;
    var hs := TunnelHosts(d);
    FirstUnpickedIs(d, hs);
    FirstMisplacedIs(d, hs);
    if d.opts != None {
      NotZonedIs(d.opts.value, hs);
      var missing := NotZoned(d.opts.value, hs);
      if missing != [] {
        assert missing[0] in missing;
      }
      forall h | h in hs
        ensures Savable(d, d.opts.value, h) <==>
                TunnelOf(d, h) != "" && (d.opts.value.connected ==> ZoneKnown(d.opts.value, h) && !Misplaced(d, h))
      {
        SavableIs(d, h);
      }
    }
  }

  /** Each reason is given exactly when it is true and no earlier one is, and names the first domain it is about. */
  lemma VerdictIsTrue(d: Delivery)
    requires TunnelHosts(d) != [] && Validate(d) != Fine
    ensures var hs := TunnelHosts(d);
            if d.opts == None then Validate(d) == StillChecking
            else
              var o := d.opts.value;
              if o.error != "" && o.tunnels == [] then Validate(d) == OptionsFailed(o.error)
              else if o.unavailable || (!o.connected && o.tunnels == []) then Validate(d) == NotConnected
              else if o.tunnels == [] then Validate(d) == NoTunnelYet
              else match Validate(d)
                   case PickTunnelFor(h) => UnpickedFirst(d, hs, h)
                   case NotInAccount(missing) =>
                     o.connected && AllPicked(d) && missing != [] && missing == Those(hs, set h | h in hs && !Zoned(o, h))
                   case OtherAccount(h) =>
                     o.connected && AllPicked(d) && (forall x | x in hs :: Zoned(o, x)) && MisplacedFirst(d, hs, h)
                   case _ => false
  {
    hide TunnelHosts, TunnelOf, ZoneKnown, Misplaced, FirstUnpicked, NotZoned, FirstMisplaced, Zoned, UnpickedFirst, MisplacedFirst;
    var hs := TunnelHosts(d);
    FirstUnpickedHas(d, hs);
    FirstUnpickedIs(d, hs);
    FirstMisplacedHas(d, hs);
    if d.opts != None {
      var o := d.opts.value;
      forall h ensures ZoneKnown(o, h) <==> Zoned(o, h) {
        AccountOfZone(o, h);
      }
      NotZonedIs(o, hs);
      NotZonedAre(o, hs, set h | h in hs && !Zoned(o, h));
    }
  }

  ghost predicate UnpickedFirst(d: Delivery, hs: seq<string>, h: string) {
    exists i :: 0 <= i < |hs| && hs[i] == h && TunnelOf(d, h) == "" && forall k | 0 <= k < i :: TunnelOf(d, hs[k]) != ""
  }

  /** The tunnel of `h` and its zone are in different known accounts. */
  ghost predicate AccountsDiffer(d: Delivery, h: string) {
    var t := Find(Tunnels(d), TunnelOf(d, h));
    t != None && t.value.account != "" && ZoneAccount(d.opts, h) !in {"", t.value.account}
  }

  ghost predicate MisplacedFirst(d: Delivery, hs: seq<string>, h: string) {
    exists i :: 0 <= i < |hs| && hs[i] == h && AccountsDiffer(d, h) && forall k | 0 <= k < i :: !AccountsDiffer(d, hs[k])
  }

  lemma {:induction false} FirstUnpickedHas(d: Delivery, hs: seq<string>)
    ensures FirstUnpicked(d, hs) != None ==> UnpickedFirst(d, hs, FirstUnpicked(d, hs).value)
  {
    hide TunnelOf;
    if hs != [] && TunnelOf(d, hs[0]) == "" {
      assert UnpickedFirst(d, hs, hs[0]);
    } else if hs != [] && FirstUnpicked(d, hs[1..]) != None {
      FirstUnpickedHas(d, hs[1..]);
      var h := FirstUnpicked(d, hs[1..]).value;
      var i :| 0 <= i < |hs[1..]| && hs[1..][i] == h && forall k | 0 <= k < i :: TunnelOf(d, hs[1..][k]) != "";
      assert hs[i + 1] == h && forall k | 0 < k < i + 1 :: hs[k] == hs[1..][k - 1];
    }
  }

  lemma {:induction false} FirstMisplacedHas(d: Delivery, hs: seq<string>)
    ensures FirstMisplaced(d, hs) != None ==> MisplacedFirst(d, hs, FirstMisplaced(d, hs).value)
  {
    assert forall h :: Misplaced(d, h) <==> AccountsDiffer(d, h);
    hide Misplaced, AccountsDiffer;
    if hs != [] && Misplaced(d, hs[0]) {
      assert MisplacedFirst(d, hs, hs[0]);
    } else if hs != [] && FirstMisplaced(d, hs[1..]) != None {
      FirstMisplacedHas(d, hs[1..]);
      var h := FirstMisplaced(d, hs[1..]).value;
      var i :| 0 <= i < |hs[1..]| && hs[1..][i] == h && forall k | 0 <= k < i :: !AccountsDiffer(d, hs[1..][k]);
      assert hs[i + 1] == h && forall k | 0 < k < i + 1 :: hs[k] == hs[1..][k - 1];
    }
  }

  /**
   Right after the defaults are picked, with tunnels to pick from: only an unusable connection, an
   unknown zone or an account that no tunnel can carry stands in the way of saving.
   */
  lemma PickThenValid(d: Delivery)
    requires NamedTunnels(Tunnels(d)) && Tunnels(d) != []
    ensures Validate(Pick(d)) == Fine <==>
              TunnelHosts(d) == [] ||
              (!d.opts.value.unavailable && (d.opts.value.connected ==> forall h | h in TunnelHosts(d) ::
                                               Zoned(d.opts.value, h) && CanBeCarried(d, h)))
  {
    hide TunnelHosts, TunnelOf, ZoneKnown, Zoned, CanBeCarried, NamedTunnels, SiteTunnel, Choices, Find, ZoneAccount, Validate, Savable;
    ValidIff(Pick(d));
    SameHosts(Pick(d), d);
    forall h | h in TunnelHosts(d)
      ensures Savable(Pick(d), d.opts.value, h) <==> (d.opts.value.connected ==> Zoned(d.opts.value, h) && CanBeCarried(d, h))
    {
      PickFits(d, h);
      SavableIs(Pick(d), h);
      AccountOfZone(d.opts.value, h);
    }
  }

  // ---------------------------------------------------------------- saving and loading again

  /** Every tunnelled domain has a tunnel. */
  ghost predicate AllPicked(d: Delivery) {
    forall h | h in TunnelHosts(d) :: TunnelOf(d, h) != ""
  }

  /** The same domains go through a tunnel, each through the same one. */
  ghost predicate SameDelivery(d: Delivery, e: Delivery) {
    TunnelHosts(d) == TunnelHosts(e) && forall h | h in TunnelHosts(d) :: TunnelOf(d, h) == TunnelOf(e, h)
  }

  lemma {:induction false} ThoseAgain(domains: seq<string>, hosts: set<string>, again: set<string>)
    requires forall h | h in domains :: h in again <==> h in hosts
    ensures Those(domains, again) == Those(domains, hosts)
  {
    if domains != [] {
      ThoseAgain(domains[1..], hosts, again);
    }
  }

  lemma {:induction false} NoneOf(domains: seq<string>)
    ensures Those(domains, {}) == []
  {
    if domains != [] {
      NoneOf(domains[1..]);
    }
  }

  lemma LoadedHosts(d: Delivery)
    ensures Payload(d) != OFF ==> TunnelHosts(Load(d.domains, Some(Payload(d)))) == TunnelHosts(d)
    ensures Payload(d) == OFF ==> TunnelHosts(Load(d.domains, Some(Payload(d)))) == []
  {
    hide TunnelOf, Those;
    var e := Load(d.domains, Some(Payload(d)));
    if Payload(d) != OFF {
      ThoseAgain(d.domains, d.hosts, e.hosts);
    } else {
      assert e.hosts == {};
      NoneOf(d.domains);
    }
  }

  lemma LoadedTunnel(d: Delivery, h: string)
    requires Payload(d) != OFF && h in TunnelHosts(d)
    ensures TunnelOf(Load(d.domains, Some(Payload(d))), h) == Or(TunnelOf(d, h), TunnelOf(d, TunnelHosts(d)[0]))
    ensures RoutedThrough(Payload(d), h) == TunnelOf(Load(d.domains, Some(Payload(d))), h)
  {
    hide TunnelHosts;
  }

  /** Saving and loading keeps the delivery exactly when no tunnelled domain is without a tunnel. */
  lemma SaveLoadIff(d: Delivery)
    ensures SameDelivery(d, Load(d.domains, Some(Payload(d)))) <==> AllPicked(d)
  {
    hide TunnelOf, TunnelHosts, Load;
    var e, hs := Load(d.domains, Some(Payload(d))), TunnelHosts(d);
    LoadedHosts(d);
    if hs != [] {
      assert hs[0] in hs;
      if Payload(d) != OFF {
        forall h | h in hs ensures TunnelOf(e, h) == TunnelOf(d, h) <==> TunnelOf(d, h) != "" {
          LoadedTunnel(d, h);
        }
      }
    }
  }

  /** What passes validation is saved without loss, and the server routes every domain as the picker showed. */
  lemma ValidIsSaved(d: Delivery)
    requires Validate(d) == Fine
    ensures SameDelivery(d, Load(d.domains, Some(Payload(d))))
    ensures forall h | h in TunnelHosts(d) :: RoutedThrough(Payload(d), h) == TunnelOf(d, h)
  {
    hide TunnelOf, TunnelHosts, Load, Validate, RoutedThrough;
    ValidIff(d);
    SaveLoadIff(d);
    forall h | h in TunnelHosts(d) ensures RoutedThrough(Payload(d), h) == TunnelOf(d, h) {
      LoadedTunnel(d, h);
    }
  }

  /** What is stored: the tunnelled domains, the first one's tunnel as the website's, and the others where they differ. */
  lemma PayloadHolds(d: Delivery)
    ensures var hs, saved := TunnelHosts(d), Payload(d);
            && (saved.enabled <==> hs != [] && TunnelOf(d, hs[0]) != "")
            && (saved.enabled ==>
                  && saved.hostnames == hs && saved.tunnelId == TunnelOf(d, hs[0])
                  && (forall h :: h in saved.tunnels <==> h in hs && TunnelOf(d, h) !in {"", saved.tunnelId})
                  && (forall h | h in saved.tunnels :: saved.tunnels[h] == TunnelOf(d, h)))
            && (!saved.enabled ==> saved.hostnames == [] && saved.tunnels == map[] && saved.tunnelId == "")
  {
    hide TunnelHosts, TunnelOf;
  }

  /** Saving what was loaded from a saved choice stores the same again, in every state. */
  lemma PayloadIsStable(d: Delivery)
    ensures Payload(Load(d.domains, Some(Payload(d)))) == Payload(d)
  {
    hide TunnelOf, TunnelHosts, Load;
    var e, hs := Load(d.domains, Some(Payload(d))), TunnelHosts(d);
    LoadedHosts(d);
    if Payload(d) != OFF {
      assert hs[0] in hs;
      forall h | h in hs ensures TunnelOf(e, h) == Or(TunnelOf(d, h), TunnelOf(d, hs[0])) {
        LoadedTunnel(d, h);
      }
      assert Payload(e).tunnels == Payload(d).tunnels;
    }
  }

  // ---------------------------------------------------------------- choosing a tunnel

  /** The domain that a tunnel is chosen for gets it, and so does the website when it is the first tunnelled one. */
  lemma ChosenIsUsed(d: Delivery, h: string, id: string)
    requires id != "" && h in TunnelHosts(d)
    ensures TunnelOf(ChooseHost(d, h, id), h) == id
    ensures TunnelHosts(ChooseHost(d, h, id)) == TunnelHosts(d)
    ensures ChooseHost(d, h, id).tunnelId == if h == TunnelHosts(d)[0] then id else d.tunnelId
  {
    hide TunnelHosts;
    SameHosts(ChooseHost(d, h, id), d);
  }

  /**
   No other tunnelled domain's tunnel changes, with one exception: choosing for the first domain also
   gives the tunnel to the domains that had none.
   */
  lemma OthersKeepTheirs(d: Delivery, h: string, id: string)
    requires id != ""
    ensures (forall x | x in TunnelHosts(d) && x != h :: TunnelOf(ChooseHost(d, h, id), x) == TunnelOf(d, x)) <==>
              (TunnelHosts(d) == [] || h != TunnelHosts(d)[0] ||
               forall x | x in TunnelHosts(d) && x != h :: TunnelOf(d, x) != "")
  {
    hide TunnelHosts;
    var hs, e := TunnelHosts(d), ChooseHost(d, h, id);
    if hs != [] && h == hs[0] {
      assert hs == [hs[0]] + hs[1..];
      forall x | x in hs && x != h ensures TunnelOf(e, x) == Or(TunnelOf(d, x), id) {
        assert x in hs[1..];
      }
    }
  }

  lemma {:induction false} ThoseSnoc(domains: seq<string>, h: string, hosts: set<string>)
    requires h in hosts
    ensures Those(domains + [h], hosts) == Those(domains, hosts) + [h]
  {
    if domains != [] {
      assert (domains + [h])[1..] == domains[1..] + [h];
      ThoseSnoc(domains[1..], h, hosts);
    } else {
      assert [] + [h] == [h];
    }
  }

  /**
   A domain added to a website is put on the tunnel without the defaults being picked again. A saveable
   choice stays saveable exactly when the tunnel the domain happens to get can carry it, although its
   account may have a better one (see PickThenValid for the switch on a domain's row).
   */
  lemma AddedDomainIsNotPicked(d: Delivery, h: string)
    requires Validate(d) == Fine && TunnelHosts(d) != [] && h !in d.domains
    ensures Validate(After(d, AddDomain(h, true))) == Fine <==>
              Savable(d, d.opts.value, h)
  {
    hide Zoned, Find, ZoneAccount, Validate, TunnelOf, Those;
    var e := After(d, AddDomain(h, true));
    ValidIff(d);
    ValidIff(e);
    ThoseSnoc(d.domains, h, e.hosts);
    ThoseAgain(d.domains, d.hosts, e.hosts);
    assert TunnelHosts(e) == TunnelHosts(d) + [h];
    forall x ensures TunnelOf(e, x) == TunnelOf(d, x) {
      SameEntries(e, d, x);
    }
  }

  lemma SameEntries(e: Delivery, d: Delivery, x: string)
    requires e.tunnelId == d.tunnelId && e.tunnelFor == d.tunnelFor && e.opts == d.opts
    ensures TunnelOf(e, x) == TunnelOf(d, x)
  {
  }

  /** The switch on a row changes only that row's domain among the tunnelled ones, and Direct no tunnel at all. */
  lemma SwitchIsLocal(d: Delivery, h: string, x: string)
    ensures x in TunnelHosts(After(d, ToTunnel(h))) <==> x in TunnelHosts(d) || (x == h && h in d.domains)
    ensures x in TunnelHosts(After(d, ToDirect(h))) <==> x in TunnelHosts(d) && x != h
    ensures TunnelOf(After(d, ToDirect(h)), x) == TunnelOf(d, x)
  {
    hide Choices, SiteTunnel;
  }

  /** A tunnel chosen for the website is every tunnelled domain's. */
  lemma SiteChoiceIsEverywhere(d: Delivery, id: string, x: string)
    requires id != ""
    ensures TunnelOf(After(d, ChooseForSite(id)), x) == id
    ensures TunnelHosts(After(d, ChooseForSite(id))) == TunnelHosts(d)
  {
    SameHosts(After(d, ChooseForSite(id)), d);
  }

  /** A domain that is put on the tunnel gets one that can carry it whenever its account has one, or is unknown. */
  lemma SwitchServes(d: Delivery, h: string)
    requires DistinctIds(Tunnels(d)) && Tunnels(d) != [] && h in d.domains
    requires ZoneAccount(d.opts, h) == "" || exists t :: t in Tunnels(d) && t.account == ZoneAccount(d.opts, h)
    ensures var e := After(d, ToTunnel(h));
            h in TunnelHosts(e) && Fits(Tunnels(d), TunnelOf(e, h), ZoneAccount(d.opts, h))
  {
    hide Pick, ZoneAccount, Fits, TunnelOf, DistinctIds, CanBeCarried;
    PickServesEveryAccount(d.(hosts := d.hosts + {h}), h);
    SwitchIsLocal(d, h, h);
  }

  /** New options are taken as they are; the domains stay, and without tunnels the choices do too. */
  lemma RecheckTakes(d: Delivery, o: Options)
    requires NamedTunnels(o.tunnels)
    ensures var e := After(d, Recheck(o));
            && e.opts == Some(o) && e.domains == d.domains && e.hosts == d.hosts && TunnelHosts(e) == TunnelHosts(d)
            && (o.tunnels == [] ==> e == d.(opts := Some(o)))
            && Pick(e) == e
  {
    hide TunnelHosts, Choices, SiteTunnel;
    PickIdempotent(d.(opts := Some(o)));
    SameHosts(After(d, Recheck(o)), d);
  }

  /** Adding, removing and switching all domains change which are tunnelled, and no tunnel of any. */
  lemma DomainsChange(d: Delivery, x: string)
    ensures forall h, on | h !in d.domains ::
              var e := After(d, AddDomain(h, on));
              e.domains == d.domains + [h] && TunnelOf(e, x) == TunnelOf(d, x)
              && (x in TunnelHosts(e) <==> x in TunnelHosts(d) || (x == h && (on || h in d.hosts)))
    ensures forall i | 0 <= i < |d.domains| ::
              var e := After(d, RemoveDomain(i));
              e.domains == d.domains[..i] + d.domains[i + 1..] && TunnelOf(e, x) == TunnelOf(d, x)
              && (x in TunnelHosts(e) <==> x in TunnelHosts(d) && x != d.domains[i])
    ensures var e := After(d, AllToTunnel);
            e.domains == d.domains && TunnelOf(e, x) == TunnelOf(d, x) && (x in TunnelHosts(e) <==> x in d.domains)
  {
    hide Those;
    forall i | 0 <= i < |d.domains|
      ensures x in TunnelHosts(After(d, RemoveDomain(i))) <==> x in TunnelHosts(d) && x != d.domains[i]
    {
      assert d.domains == d.domains[..i] + [d.domains[i]] + d.domains[i + 1..];
    }
  }

  // ---------------------------------------------------------------- every run of the picker

  /** No entry repeats the website's tunnel, and with tunnels to choose from the website has one. */
  ghost predicate InOrder(d: Delivery) {
    && (forall h | h in d.tunnelFor :: d.tunnelFor[h] != d.tunnelId)
    && NamedTunnels(Tunnels(d))
    && (Tunnels(d) != [] ==> d.tunnelId != "")
  }

  /** Nothing stored, or stored as the picker stores it, is a state in order. */
  lemma LoadInOrder(domains: seq<string>, d: Delivery)
    ensures InOrder(Load(domains, None)) && InOrder(Load(domains, Some(Payload(d))))
  {
    hide TunnelHosts, TunnelOf;
  }

  /** Exactly which stored choices open in order: those that do not repeat the website's tunnel for a domain. */
  lemma LoadInOrderIff(domains: seq<string>, cf: Option<Saved>)
    ensures InOrder(Load(domains, cf)) <==>
              (cf != None && cf.value.enabled ==> forall h | h in cf.value.tunnels :: cf.value.tunnels[h] != cf.value.tunnelId)
  {
  }

  lemma PickInOrder(d: Delivery)
    requires NamedTunnels(Tunnels(d)) && (Tunnels(d) == [] ==> InOrder(d))
    ensures InOrder(Pick(d))
  {
    hide TunnelHosts, SiteTunnel, Fits, Best, NamedTunnels, Choice;
    if Tunnels(d) != [] {
      SiteTunnelIs(d);
    }
  }

  lemma StepInOrder(d: Delivery, step: Step)
    requires InOrder(d) && CanStep(d, step)
    ensures InOrder(After(d, step))
  {
    hide TunnelHosts, Pick, TunnelOf, NamedTunnels;
    match step
    case ToTunnel(h) => PickInOrder(d.(hosts := d.hosts + {h}));
    case Recheck(o) => PickInOrder(d.(opts := Some(o)));
    case _ =>
  }

  lemma {:induction false} RunInOrder(d: Delivery, steps: seq<Step>)
    requires InOrder(d) && CanRun(d, steps)
    ensures InOrder(Run(d, steps))
    decreases |steps|
  {
    hide After, InOrder, CanStep;
    if steps != [] {
      StepInOrder(d, steps[0]);
      RunInOrder(After(d, steps[0]), steps[1..]);
    }
  }

  /**
   Whatever the admin clicks after a website is opened, in any order: while there are tunnels to choose
   from, every tunnelled domain has one, so saving and opening the website again loses nothing.
   */
  lemma RunSavesAll(d: Delivery, steps: seq<Step>)
    requires InOrder(d) && CanRun(d, steps) && Tunnels(Run(d, steps)) != []
    ensures var e := Run(d, steps);
            AllPicked(e) && SameDelivery(e, Load(e.domains, Some(Payload(e))))
  {
    hide TunnelHosts, Run, Payload, Load;
    RunInOrder(d, steps);
    var e := Run(d, steps);
    assert forall h :: TunnelOf(e, h) != "";
    SaveLoadIff(e);
  }
}
