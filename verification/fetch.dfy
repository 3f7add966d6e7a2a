/**
 * The pure part of fetch_departure_data and fetch_deviation_data: the
 * per-site results, concatenated in site order, and for departures sorted by
 * expected time. The HTTP request of each site is not modelled; its outcome is
 * the parameter: one response per site, in site order. `SITES` has two sites;
 * the contracts below hold for any number of them.
 */
module Fetch {
  import opened Wrappers
  import opened Seqs
  import opened Config
  import opened ExpectedTime
  import opened Departures
  import opened Deviations
  import opened DepartureOrder

  /** The decoded body of one site's response, or `Failed` when the request raised. */
  datatype Response<T> = Received(body: T) | Failed

  /** fetch_and_parse for departures: a failed site contributes nothing. */
  function SiteDepartures(fromIso: string -> Option<Instant>): (f: Response<DeparturePayload> -> seq<Departure>)
    ensures f(Failed) == []
    ensures forall resp, d :: d in f(resp) ==> d.line in LINES
  {
    (resp: Response<DeparturePayload>) => match resp
            case Received(p) => ParseDepartures(p, fromIso)
            case Failed => []
  }

  /** fetch_and_parse for deviations: a failed site contributes nothing. */
  function SiteDeviations(resp: Response<DeviationPayload>): (r: seq<Disruption>)
    ensures resp.Failed? ==> r == []
    ensures forall d :: d in r ==>
              (resp.Received? && resp.body.Array? && exists dev :: dev in resp.body.items && d in DeviationMessages(dev))
  {
    match resp
    case Received(p) => ParseDeviations(p)
    case Failed => []
  }

  /**
   * fetch_departure_data with the intended sort: every site's departures,
   * monitored lines only, ordered by expected time with untimed ones last.
   */
  function FetchDepartures(responses: seq<Response<DeparturePayload>>, fromIso: string -> Option<Instant>): (r: seq<Departure>)
    ensures multiset(r) == multiset(FlatMap(responses, SiteDepartures(fromIso)))
    ensures SortedBy(r, DepartureLe())
    ensures forall d :: d in r ==> d.line in LINES
    ensures (forall i :: 0 <= i < |responses| ==> responses[i].Failed?) ==> r == []
  {
    var all := FlatMap(responses, SiteDepartures(fromIso));
    SiteLinesMonitored(responses, fromIso);
    SortDepartures(all)
  }

  lemma SiteLinesMonitored(responses: seq<Response<DeparturePayload>>, fromIso: string -> Option<Instant>)
    ensures forall d :: d in multiset(FlatMap(responses, SiteDepartures(fromIso))) ==> d.line in LINES
  {
    var f := SiteDepartures(fromIso);
    var all := FlatMap(responses, f);
    FlatMapKeeps(responses, f, (d: Departure) => d.line in LINES);
    forall d: Departure | d in multiset(all)
      ensures d.line in LINES
    {
      assert d in all;
    }
  }

  lemma FetchIsSortOfAll(responses: seq<Response<DeparturePayload>>, fromIso: string -> Option<Instant>)
    ensures FetchDepartures(responses, fromIso) == SortDepartures(FlatMap(responses, SiteDepartures(fromIso)))
  {
  }

  /** A failed site changes nothing: the result is that of the other sites alone. */
  lemma FailedSiteIgnored(before: seq<Response<DeparturePayload>>, after: seq<Response<DeparturePayload>>,
                          fromIso: string -> Option<Instant>)
    ensures FetchDepartures(before + [Failed] + after, fromIso) == FetchDepartures(before + after, fromIso)
  {
    var f := SiteDepartures(fromIso);
    assert f(Failed) == [];
    FlatMapSkipsEmpty(before, Failed, after, f);
    FetchIsSortOfAll(before + [Failed] + after, fromIso);
    FetchIsSortOfAll(before + after, fromIso);
  }

  lemma SingleSite(resp: Response<DeparturePayload>, fromIso: string -> Option<Instant>)
    ensures FlatMap([resp], SiteDepartures(fromIso)) == SiteDepartures(fromIso)(resp)
  {
    var f := SiteDepartures(fromIso);
    assert [resp][1..] == [];
    assert FlatMap([resp], f) == f(resp) + FlatMap([resp][1..], f);
  }

  /** One site down, the other up: the result is the live site's departures, sorted. */
  lemma OneSiteDown(p: DeparturePayload, fromIso: string -> Option<Instant>)
    ensures FetchDepartures([Failed, Received(p)], fromIso) == SortDepartures(ParseDepartures(p, fromIso))
    ensures FetchDepartures([Received(p), Failed], fromIso) == SortDepartures(ParseDepartures(p, fromIso))
  {
    LiveSiteAlone(p, fromIso);
    FirstSiteDown(p, fromIso);
    SecondSiteDown(p, fromIso);
  }

  lemma FirstSiteDown(p: DeparturePayload, fromIso: string -> Option<Instant>)
    ensures FetchDepartures([Failed, Received(p)], fromIso) == FetchDepartures([Received(p)], fromIso)
  {
    var up: seq<Response<DeparturePayload>> := [Received(p)];
    var none: seq<Response<DeparturePayload>> := [];
    assert none + [Failed] + up == [Failed, Received(p)];
    assert none + up == up;
    FailedSiteIgnored(none, up, fromIso);
  }

  lemma SecondSiteDown(p: DeparturePayload, fromIso: string -> Option<Instant>)
    ensures FetchDepartures([Received(p), Failed], fromIso) == FetchDepartures([Received(p)], fromIso)
  {
    var up: seq<Response<DeparturePayload>> := [Received(p)];
    var none: seq<Response<DeparturePayload>> := [];
    assert up + [Failed] + none == [Received(p), Failed];
    assert up + none == up;
    FailedSiteIgnored(up, none, fromIso);
  }

  lemma LiveSiteAlone(p: DeparturePayload, fromIso: string -> Option<Instant>)
    ensures FetchDepartures([Received(p)], fromIso) == SortDepartures(ParseDepartures(p, fromIso))
  {
    SingleSite(Received(p), fromIso);
    assert SiteDepartures(fromIso)(Received(p)) == ParseDepartures(p, fromIso);
    FetchIsSortOfAll([Received(p)], fromIso);
  }

  /** fetch_deviation_data: every site's disruptions, in site order; no sort. */
  function FetchDeviations(responses: seq<Response<DeviationPayload>>): (r: seq<Disruption>)
    ensures forall d :: d in r ==> exists resp :: resp in responses && resp.Received? && d in ParseDeviations(resp.body)
    ensures (forall i :: 0 <= i < |responses| ==> responses[i].Failed?) ==> r == []
  {
    var r := FlatMap(responses, SiteDeviations);
    assert forall d :: d in r ==> exists resp :: resp in responses && resp.Received? && d in ParseDeviations(resp.body) by {
      forall d | d in r
        ensures exists resp :: resp in responses && resp.Received? && d in ParseDeviations(resp.body)
      {
        FlatMapMembers(responses, SiteDeviations, d);
        var i :| 0 <= i < |responses| && d in SiteDeviations(responses[i]);
        assert responses[i] in responses;
      }
    }
    r
  }

  /** The per-site results are concatenated, so with every site up the order is site, deviation, variant. */
  lemma DeviationsInSiteOrder(a: seq<RawDeviation>, b: seq<RawDeviation>)
    ensures FetchDeviations([Received(Array(a)), Received(Array(b))]) == ParseDeviations(Array(a + b))
  {
    var rs := [Received(Array(a)), Received(Array(b))];
    assert rs[1..] == [Received(Array(b))];
    assert rs[1..][1..] == [];
    assert FlatMap(rs[1..], SiteDeviations) == ParseDeviations(Array(b)) + FlatMap(rs[1..][1..], SiteDeviations);
    assert FlatMap(rs, SiteDeviations) == ParseDeviations(Array(a)) + FlatMap(rs[1..], SiteDeviations);
    DeviationsIndependent(a, b);
  }
}
