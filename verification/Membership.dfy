/** The membership checker with its per-user TTL cache (internal/auth/membership.go). Times are
    nanoseconds. */
module Membership {
  import opened Options
  import opened Spacing

  datatype Installation = Installation(id: int, accountType: string)

  /** One account in the answer of the GitHub installations listing. */
  datatype Listed = Listed(account: string, installation: Installation)

  datatype Decision = Decision(isMember: bool, checkedAt: int)

  /** What GitHub says about a user in an organisation. */
  datatype Answer = Yes | No | Failed

  const HOUR: int := 3_600_000_000_000
  const DEFAULT_TTL: int := 300_000_000_000

  /** What GitHub answers about (installation, organisation, user). */
  type Upstream = (int, string, string) -> Answer

  /** The map holds the accounts of the listing, each with the installation of its last entry. */
  ghost predicate MapsListing(mapping: map<string, Installation>, listing: seq<Listed>) {
    && (forall account :: account in mapping <==>
      exists i :: 0 <= i < |listing| && listing[i].account == account)
    && (forall i :: 0 <= i < |listing| && LastOfAccount(listing, i) ==>
      listing[i].account in mapping && mapping[listing[i].account] == listing[i].installation)
  }

  predicate LastOfAccount(listing: seq<Listed>, i: nat)
    requires i < |listing|
  {
    forall j :: i < j < |listing| ==> listing[j].account != listing[i].account
  }

  lemma MapsOneMore(mapping: map<string, Installation>, listing: seq<Listed>, entry: Listed)
    requires MapsListing(mapping, listing)
    ensures MapsListing(mapping[entry.account := entry.installation], listing + [entry])
  {
    var longer := listing + [entry];
    assert longer[|listing|] == entry;
    assert forall i :: 0 <= i < |listing| ==> longer[i] == listing[i];
    forall i | 0 <= i < |listing| && LastOfAccount(longer, i)
      ensures LastOfAccount(listing, i) && longer[i].account != entry.account
    {
      assert longer[|listing|].account != longer[i].account;
    }
    forall account | account in mapping
      ensures exists i :: 0 <= i < |longer| && longer[i].account == account
    {
      var i :| 0 <= i < |listing| && listing[i].account == account;
      assert longer[i].account == account;
    }
  }

  /** Every account of a listing has a last entry. */
  lemma {:induction false} LastEntry(listing: seq<Listed>, account: string, i: nat) returns (last: nat)
    requires i < |listing| && listing[i].account == account
    ensures last < |listing| && listing[last].account == account && LastOfAccount(listing, last)
    decreases |listing| - i
  {
    if j :| i < j < |listing| && listing[j].account == account {
      last := LastEntry(listing, account, j);
    } else {
      last := i;
    }
  }

  /** An installed account vouches for the user: it is the user's own personal account, or an
      organisation GitHub says the user is a member of. */
  predicate Vouches(inst: Installation, org: string, user: string, upstream: Upstream) {
    || (inst.accountType == "User" && user == org)
    || (inst.accountType == "Organization" && upstream(inst.id, org, user) == Yes)
  }

  predicate Grants(mapping: map<string, Installation>, org: string, user: string, upstream: Upstream) {
    org in mapping && Vouches(mapping[org], org, user, upstream)
  }

  predicate AnyGrants(orgs: seq<string>, mapping: map<string, Installation>, user: string, upstream: Upstream) {
    exists i :: 0 <= i < |orgs| && Grants(mapping, orgs[i], user, upstream)
  }

  lemma GrantsSpelled(orgs: seq<string>, mapping: map<string, Installation>, user: string, upstream: Upstream)
    ensures AnyGrants(orgs, mapping, user, upstream) <==> exists i ::
      && 0 <= i < |orgs| && orgs[i] in mapping
      && var inst := mapping[orgs[i]];
        || (inst.accountType == "User" && user == orgs[i])
        || (inst.accountType == "Organization" && upstream(inst.id, orgs[i], user) == Yes)
  {
  }

  /** Some allowed account is listed, and the last entry it has there vouches for the user. */
  ghost predicate ListingGrants(orgs: seq<string>, listing: seq<Listed>, user: string, upstream: Upstream) {
    exists i, k ::
      && 0 <= i < |orgs| && 0 <= k < |listing| && listing[k].account == orgs[i]
      && LastOfAccount(listing, k) && Vouches(listing[k].installation, orgs[i], user, upstream)
  }

  lemma ListingGrantsSpelled(orgs: seq<string>, listing: seq<Listed>, user: string, upstream: Upstream)
    ensures ListingGrants(orgs, listing, user, upstream) <==> exists i, k ::
      && 0 <= i < |orgs| && 0 <= k < |listing| && listing[k].account == orgs[i]
      && (forall later :: k < later < |listing| ==> listing[later].account != orgs[i])
      && var inst := listing[k].installation;
        || (inst.accountType == "User" && user == orgs[i])
        || (inst.accountType == "Organization" && upstream(inst.id, orgs[i], user) == Yes)
  {
  }

  /** Asking the map is asking the listing. */
  lemma MapGrantsAsListed(orgs: seq<string>, mapping: map<string, Installation>, listing: seq<Listed>, user: string,
        upstream: Upstream)
    requires MapsListing(mapping, listing)
    ensures AnyGrants(orgs, mapping, user, upstream) <==> ListingGrants(orgs, listing, user, upstream)
  {
    hide Vouches, LastOfAccount;
    forall i | 0 <= i < |orgs| && orgs[i] in mapping
      ensures exists k ::
        && 0 <= k < |listing| && listing[k].account == orgs[i] && LastOfAccount(listing, k)
        && mapping[orgs[i]] == listing[k].installation
    {
      var k :| 0 <= k < |listing| && listing[k].account == orgs[i];
      var last := LastEntry(listing, orgs[i], k);
    }
  }

  /** A cached decision still counts for a call that read the clock at `now`. */
  predicate Fresh(cache: map<string, Decision>, user: string, now: int, ttl: int) {
    user in cache && now - cache[user].checkedAt < ttl
  }

  function RoundsOf(rounds: map<string, seq<int>>, user: string): seq<int> {
    if user in rounds then rounds[user] else []
  }

  /** The cache holds the start of each user's last round, and rounds are a TTL apart. */
  ghost predicate RoundsOk(cache: map<string, Decision>, rounds: map<string, seq<int>>, ttl: int) {
    && cache.Keys == rounds.Keys
    && forall u {:trigger rounds[u]} :: u in rounds ==>
      rounds[u] != [] && cache[u].checkedAt == rounds[u][|rounds[u]| - 1] && Apart(rounds[u], ttl)
  }

  lemma RoundAdded(cache: map<string, Decision>, rounds: map<string, seq<int>>, user: string, d: Decision, ttl: int)
    requires RoundsOk(cache, rounds, ttl) && ttl > 0 && !Fresh(cache, user, d.checkedAt, ttl)
    ensures RoundsOk(cache[user := d], rounds[user := RoundsOf(rounds, user) + [d.checkedAt]], ttl)
  {
    ApartAppend(RoundsOf(rounds, user), d.checkedAt, ttl);
  }

  class MembershipChecker {
    const allowedOrgs: seq<string>
    const ttl: int
    var orgInstall: map<string, Installation>
    var installAt: int
    var cache: map<string, Decision>

    /** Per user, when the upstream rounds since the last Invalidate began. */
    ghost var rounds: map<string, seq<int>>

    ghost predicate Valid()
      reads this
    {
      ttl > 0 && RoundsOk(cache, rounds, ttl)
    }

    constructor (allowedOrgs: seq<string>, ttl: int)
      ensures this.allowedOrgs == allowedOrgs && this.ttl == if ttl <= 0 then 300_000_000_000 else ttl
      ensures orgInstall == map[] && cache == map[] && Valid()
    {
      this.allowedOrgs := allowedOrgs;
      this.ttl := if ttl <= 0 then DEFAULT_TTL else ttl;
      orgInstall := map[];
      installAt := 0;
      cache := map[];
      rounds := map[];
    }

    /** `listing` is GitHub's answer, None on an error. A new map holds exactly the accounts of the
        listing, each with the installation of its last entry. */
    method RefreshInstallations(force: bool, listing: Option<seq<Listed>>, now: int) returns (ok: bool)
      modifies this`orgInstall, this`installAt
      ensures var recent := !force && |old(orgInstall)| > 0 && now - old(installAt) < 3_600_000_000_000;
        && ok == (recent || listing.Some?)
        && (recent || listing.None? ==> orgInstall == old(orgInstall) && installAt == old(installAt))
        && (!recent && listing.Some? ==> MapsListing(orgInstall, listing.value) && installAt == now)
      ensures listing.Some? && (force || |old(orgInstall)| == 0 || now - old(installAt) >= 3_600_000_000_000) ==>
        var entries := listing.value;
        && (forall org :: org in orgInstall <==> exists i :: 0 <= i < |entries| && entries[i].account == org)
        && (forall i ::
          0 <= i < |entries| && (forall j :: i < j < |entries| ==> entries[j].account != entries[i].account) ==>
            orgInstall[entries[i].account] == entries[i].installation)
    {
      if !force && |orgInstall| > 0 && now - installAt < HOUR { return true; }
      if listing.None? { return false; }
      var installs := listing.value;
      var mapping: map<string, Installation> := map[];
      for i := 0 to |installs|
        invariant MapsListing(mapping, installs[..i])
      {
        assert installs[..i + 1] == installs[..i] + [installs[i]];
        MapsOneMore(mapping, installs[..i], installs[i]);
        mapping := mapping[installs[i].account := installs[i].installation];
      }
      assert installs[..|installs|] == installs;
      orgInstall := mapping;
      installAt := now;
      ok := true;
    }

    /** An empty installation map is refreshed first; if that fails everybody is refused. The
        loop stops at the first organisation that grants, and skips failing and unknown ones. */
    method CheckOrgs(user: string, listing: Option<seq<Listed>>, upstream: Upstream, now: int)
      returns (isMember: bool)
      modifies this`orgInstall, this`installAt
      ensures if |old(orgInstall)| == 0 && listing.Some?
        then MapsListing(orgInstall, listing.value) else orgInstall == old(orgInstall)
      ensures isMember <==>
        !(|old(orgInstall)| == 0 && listing.None?) && AnyGrants(allowedOrgs, orgInstall, user, upstream)
    {
      hide MapsListing;
      if |orgInstall| == 0 {
        var ok := RefreshInstallations(true, listing, now);
        if !ok { return false; }
      }
      var mapping := orgInstall;
      for i := 0 to |allowedOrgs|
        invariant forall j :: 0 <= j < i ==> !Grants(mapping, allowedOrgs[j], user, upstream)
      {
        var allowed := allowedOrgs[i];
        if allowed in mapping {
          var inst := mapping[allowed];
          if inst.accountType == "User" {
            if user == allowed {
              assert Grants(mapping, allowedOrgs[i], user, upstream);
              return true;
            }
          } else if inst.accountType == "Organization" {
            if upstream(inst.id, allowed, user) == Yes {
              assert Grants(mapping, allowedOrgs[i], user, upstream);
              return true;
            }
          }
        }
      }
      isMember := false;
    }

    /** A fresh decision is returned as it is; otherwise a new one is made and cached with the
        time at which this call began; `asked` tells which. A new decision is yes exactly when an
        allowed account vouches for the user: by the installation map, or by GitHub's listing when
        the map was empty. Called one at a time, two rounds for one user are therefore never closer
        than the TTL, whatever clock the calls read. */
    method IsAllowed(user: string, now: int, listing: Option<seq<Listed>>, upstream: Upstream)
      returns (isMember: bool, asked: bool)
      requires Valid()
      modifies this
      ensures Valid()
      ensures rounds == if asked then old(rounds)[user := RoundsOf(old(rounds), user) + [now]] else old(rounds)
      ensures asked <==> !(user in old(cache) && now - old(cache)[user].checkedAt < ttl)
      ensures !asked ==> isMember == old(cache)[user].isMember && cache == old(cache) && orgInstall == old(orgInstall)
      ensures asked ==> cache == old(cache)[user := Decision(isMember := isMember, checkedAt := now)]
      ensures |old(orgInstall)| > 0 || listing.None? ==> orgInstall == old(orgInstall)
      ensures asked && |old(orgInstall)| > 0 ==>
        (isMember <==> exists i ::
          && 0 <= i < |allowedOrgs| && allowedOrgs[i] in orgInstall
          && var inst := orgInstall[allowedOrgs[i]];
            || (inst.accountType == "User" && user == allowedOrgs[i])
            || (inst.accountType == "Organization" && upstream(inst.id, allowedOrgs[i], user) == Yes))
      ensures asked && |old(orgInstall)| == 0 && listing.None? ==> !isMember
      ensures asked && |old(orgInstall)| == 0 && listing.Some? ==>
        var entries := listing.value;
        && MapsListing(orgInstall, entries)
        && (isMember <==> exists i, k ::
          && 0 <= i < |allowedOrgs| && 0 <= k < |entries| && entries[k].account == allowedOrgs[i]
          && (forall later :: k < later < |entries| ==> entries[later].account != allowedOrgs[i])
          && var inst := entries[k].installation;
            || (inst.accountType == "User" && user == allowedOrgs[i])
            || (inst.accountType == "Organization" && upstream(inst.id, allowedOrgs[i], user) == Yes))
    {
      if user in cache && now - cache[user].checkedAt < ttl {
        return cache[user].isMember, false;
      }
      hide RoundsOk, AnyGrants, MapsListing, ListingGrants;
      ghost var before, known := cache, rounds;
      isMember := CheckOrgs(user, listing, upstream, now);
      if |old(orgInstall)| == 0 && listing.Some? {
        MapGrantsAsListed(allowedOrgs, orgInstall, listing.value, user, upstream);
        ListingGrantsSpelled(allowedOrgs, listing.value, user, upstream);
      }
      GrantsSpelled(allowedOrgs, orgInstall, user, upstream);
      cache := cache[user := Decision(isMember, now)];
      rounds := rounds[user := RoundsOf(rounds, user) + [now]];
      asked := true;
      RoundAdded(before, known, user, Decision(isMember, now), ttl);
    }

    method Invalidate(user: string)
      requires Valid()
      modifies this`cache, this`rounds
      ensures Valid() && cache == old(cache) - {user} && rounds == old(rounds) - {user}
    {
      cache := cache - {user};
      rounds := rounds - {user};
    }
  }
}
