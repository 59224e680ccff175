/** The site directory client: listing the remote sites, finding one by its
    primary domain, and creating one. The `/websites/search` and `/websites`
    calls are oracles: `listing` is what the search call returned (the site
    list, or the transport error's message), `postFailure` the creation
    call's error message if it failed. */
module Sites {
  import opened Wrappers

  /** The fields of a remote site the engine reads; `sitePath` is absent when
      the server did not send one. */
  datatype Site = Site(primaryDomain: string, sitePath: Option<string>)

  /** The prefixes each operation puts in front of the message it rethrows. */
  const ListFailed := "Get website list failed: "
  const DetailFailed := "Get website detail failed: "
  const CreateFailed := "Create website failed: "

  /** `getWebsiteList`: the listed sites, or the call's error wrapped. */
  function GetWebsiteList(listing: Result<seq<Site>>): (r: Result<seq<Site>>)
    ensures listing.Ok? <==> r.Ok?
    ensures listing.Ok? ==> r.value == listing.value
    ensures listing.Err? ==> r.error == ListFailed + listing.error
  {
    match listing
    case Ok(sites) => Ok(sites)
    case Err(message) => Err(ListFailed + message)
  }

  /** `sites.find(w => w.primaryDomain === domain)`. */
  function FindByDomain(sites: seq<Site>, domain: string): (r: Option<Site>)
    ensures r.None? <==> forall i :: 0 <= i < |sites| ==> sites[i].primaryDomain != domain
    ensures r.Some? ==> exists i :: 0 <= i < |sites| && sites[i] == r.value && sites[i].primaryDomain == domain
                          && forall j :: 0 <= j < i ==> sites[j].primaryDomain != domain
  {
    if sites == [] then None
    else if sites[0].primaryDomain == domain then Some(sites[0])
    else
      var r := FindByDomain(sites[1..], domain);
      assert forall i :: 1 <= i < |sites| ==> sites[i] == sites[1..][i - 1];
      if r.Some? then
        var i :| 0 <= i < |sites[1..]| && sites[1..][i] == r.value && sites[1..][i].primaryDomain == domain
                 && forall j :: 0 <= j < i ==> sites[1..][j].primaryDomain != domain;
        assert sites[i + 1] == r.value;
        assert forall j :: 0 <= j < i + 1 ==> sites[j].primaryDomain != domain by {
          forall j | 0 <= j < i + 1 ensures sites[j].primaryDomain != domain {
            if j > 0 { assert sites[j] == sites[1..][j - 1]; }
          }
        }
        r
      else
        r
  }

  /** `getWebsiteDetail(domain)`: the first listed site with exactly this
      primary domain, `None` when there is none (not an error); a failed
      listing is an error, wrapped once more. */
  function GetWebsiteDetail(domain: string, listing: Result<seq<Site>>): (r: Result<Option<Site>>)
    ensures listing.Err? <==> r.Err?
    ensures listing.Err? ==> r.error == DetailFailed + ListFailed + listing.error
    ensures listing.Ok? ==> r.value == FindByDomain(listing.value, domain)
  {
    match GetWebsiteList(listing)
    case Ok(sites) => Ok(FindByDomain(sites, domain))
    case Err(message) => Err(DetailFailed + message)
  }

  /** `createWebsite({domain})`: post the creation request, then look the
      site up. Either call's failure is wrapped; a lookup that finds nothing
      is passed on as `None`, not raised. */
  function CreateWebsite(domain: string, postFailure: Option<string>, listing: Result<seq<Site>>): (r: Result<Option<Site>>)
    ensures postFailure.Some? ==> r == Err(CreateFailed + postFailure.value)
    ensures postFailure.None? ==> r.Ok? == listing.Ok?
    ensures postFailure.None? && listing.Ok? ==> r.value == FindByDomain(listing.value, domain)
    ensures postFailure.None? && listing.Err? ==>
      r.error == CreateFailed + DetailFailed + ListFailed + listing.error
  {
    match postFailure
    case Some(message) => Err(CreateFailed + message)
    case None =>
      match GetWebsiteDetail(domain, listing)
      case Ok(site) => Ok(site)
      case Err(message) =>
        Err(CreateFailed + message)
  }

  /** With duplicates in the list, the earliest listed site wins. */
  lemma FirstMatchWins(sites: seq<Site>, i: nat, domain: string)
    requires i < |sites| && sites[i].primaryDomain == domain
    requires forall j :: 0 <= j < i ==> sites[j].primaryDomain != domain
    ensures FindByDomain(sites, domain) == Some(sites[i])
  {
    var r := FindByDomain(sites, domain);
    var k :| 0 <= k < |sites| && sites[k] == r.value && sites[k].primaryDomain == domain
             && forall j :: 0 <= j < k ==> sites[j].primaryDomain != domain;
    assert !(k < i) && !(i < k);
  }

  /** Looking up `x.com` among `a.com` and `x.com` finds the second site;
      among `a.com` alone, nothing, and no error. */
  lemma LookupExamples(a: Site, x: Site)
    requires a.primaryDomain == "a.com" && x.primaryDomain == "x.com"
    ensures GetWebsiteDetail("x.com", Ok([a, x])) == Ok(Some(x))
    ensures GetWebsiteDetail("x.com", Ok([a])) == Ok(None)
  {
    FirstMatchWins([a, x], 1, "x.com");
  }
}
