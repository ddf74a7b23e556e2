/** The detail collector (`collect_player_info`): it walks the identifier
    list one player at a time, requests each player's page through the
    proxy, and yields one merged record per page. */
module PlayersInfo {
  import opened Wrappers
  import opened Proxy
  import opened PlayerRecord

  const DetailPrefix: string := "https://sofifa.com/player/"
  const DetailSuffix: string := "?units=mks"

  /** The metric-units page of one player.  The start request formats it
      and `parse` concatenates it; both give the same string. */
  function DetailPageUrl(id: string): (u: string)
    ensures |u| == |DetailPrefix| + |id| + |DetailSuffix|
    ensures u[|DetailPrefix|..|u| - |DetailSuffix|] == id
  {
    DetailPrefix + id + DetailSuffix
  }

  /** The proxy request for one player's page. */
  function RequestUrl(id: string, apiKey: string): string
  {
    ApiUrl(DetailPageUrl(id), apiKey)
  }

  /** Distinct identifiers give distinct requests. */
  lemma RequestUrlInjective(id1: string, id2: string, apiKey: string)
    ensures RequestUrl(id1, apiKey) == RequestUrl(id2, apiKey) <==> id1 == id2
  {
    ApiUrlInjective(DetailPageUrl(id1), DetailPageUrl(id2), apiKey);
    if DetailPageUrl(id1) == DetailPageUrl(id2) {
      var u := DetailPageUrl(id1);
      assert id1 == u[|DetailPrefix|..|u| - |DetailSuffix|];
    }
  }

  /** Why `start_requests` raises: the identifier file was not loaded (so
      `players` and `player_count` were never set), or it holds no
      identifier. */
  datatype StartError = NotLoaded | NoPlayers

  /** What `parse` makes of each player's page, in list order. */
  function Outcomes(players: seq<string>, apiKey: string, fetch: string -> Page,
                    template: string -> Option<Summary>): (o: seq<Result<Record, ParseError>>)
    ensures |o| == |players|
  {
    if players == [] then []
    else [Assemble(players[0], fetch(RequestUrl(players[0], apiKey)), template)] + Outcomes(players[1..], apiKey, fetch, template)
  }

  /** Each player's request, in list order. */
  function Requests(players: seq<string>, apiKey: string): (urls: seq<string>)
    ensures |urls| == |players|
  {
    if players == [] then [] else [RequestUrl(players[0], apiKey)] + Requests(players[1..], apiKey)
  }

  lemma {:induction false} OutcomeAt(players: seq<string>, apiKey: string, fetch: string -> Page,
                                     template: string -> Option<Summary>, j: int)
    requires 0 <= j < |players|
    ensures Outcomes(players, apiKey, fetch, template)[j] == Assemble(players[j], fetch(RequestUrl(players[j], apiKey)), template)
  {
    if j > 0 {
      OutcomeAt(players[1..], apiKey, fetch, template, j - 1);
    }
  }

  lemma {:induction false} RequestAt(players: seq<string>, apiKey: string, j: int)
    requires 0 <= j < |players|
    ensures Requests(players, apiKey)[j] == RequestUrl(players[j], apiKey)
  {
    if j > 0 {
      RequestAt(players[1..], apiKey, j - 1);
    }
  }

  /** What the crawl does from the request for player `i` on, given what
      `parse` makes of each player's page (`outcomes`), each player's
      request (`urls`) and the URLs already scheduled (`seen`): the records
      yielded, in order, and the follow-up requests scheduled.  A page that
      fails to parse ends the chain, and so do the last player and a
      follow-up URL that the duplicate filter has already seen. */
  function Crawl(outcomes: seq<Result<Record, ParseError>>, urls: seq<string>, i: nat, seen: seq<string>)
    : (c: (seq<Record>, seq<string>))
    requires |outcomes| == |urls| && i < |urls|
    ensures |c.1| <= |c.0| <= |c.1| + 1
    ensures |c.0| <= |urls| - i && |c.1| < |urls| - i
    decreases |urls| - i
  {
    if outcomes[i].Success? && i < |urls| - 1 && urls[i + 1] !in seen then
      var rest := Crawl(outcomes, urls, i + 1, seen + [urls[i + 1]]);
      ([outcomes[i].value] + rest.0, [urls[i + 1]] + rest.1)
    else if outcomes[i].Success? then ([outcomes[i].value], [])
    else ([], [])
  }

  /** The records `c.0` are the outcomes of consecutive players from `i`
      on; the requests `c.1` are the requests of the players after `i`, in
      order, each new to the duplicate filter. */
  ghost predicate InOrder(outcomes: seq<Result<Record, ParseError>>, urls: seq<string>, i: nat, seen: seq<string>,
                          c: (seq<Record>, seq<string>))
    requires |outcomes| == |urls| && i + |c.0| <= |urls| && i + 1 + |c.1| <= |urls|
  {
    && (forall k :: 0 <= k < |c.0| ==> outcomes[i + k] == Success(c.0[k]))
    && (forall k :: 0 <= k < |c.1| ==> c.1[k] == urls[i + 1 + k])
    && (forall k :: 0 <= k < |c.1| ==> c.1[k] !in seen)
    && (forall j, k :: 0 <= j < k < |c.1| ==> c.1[j] != c.1[k])
  }

  lemma {:induction false} CrawlOrder(outcomes: seq<Result<Record, ParseError>>, urls: seq<string>, i: nat, seen: seq<string>)
    requires |outcomes| == |urls| && i < |urls|
    ensures InOrder(outcomes, urls, i, seen, Crawl(outcomes, urls, i, seen))
    decreases |urls| - i
  {
    if outcomes[i].Success? && i < |urls| - 1 && urls[i + 1] !in seen {
      var c := Crawl(outcomes, urls, i, seen);
      var seen' := seen + [urls[i + 1]];
      var rest := Crawl(outcomes, urls, i + 1, seen');
      CrawlOrder(outcomes, urls, i + 1, seen');
      assert c.0 == [outcomes[i].value] + rest.0;
      assert c.1 == [urls[i + 1]] + rest.1;
      forall k | 1 <= k < |c.0| ensures outcomes[i + k] == Success(c.0[k]) {
        assert c.0[k] == rest.0[k - 1];
        assert outcomes[(i + 1) + (k - 1)] == Success(rest.0[k - 1]);
      }
      forall k | 1 <= k < |c.1| ensures c.1[k] == urls[i + 1 + k] && c.1[k] !in seen' {
        assert c.1[k] == rest.1[k - 1];
        assert rest.1[k - 1] == urls[(i + 1) + 1 + (k - 1)] && rest.1[k - 1] !in seen';
      }
      forall j, k | 0 <= j < k < |c.1| ensures c.1[j] != c.1[k] {
        assert c.1[k] == rest.1[k - 1];
        assert rest.1[k - 1] !in seen';
        if j > 0 {
          assert c.1[j] == rest.1[j - 1];
        }
      }
    }
  }

  /** When every outcome from player `i` on is a record and no later
      request has been seen or repeats, the crawl yields one record per
      player and schedules a request for each after the first. */
  lemma {:induction false} CrawlComplete(outcomes: seq<Result<Record, ParseError>>, urls: seq<string>, i: nat, seen: seq<string>)
    requires |outcomes| == |urls| && i < |urls|
    requires forall j, k :: i < j < k < |urls| ==> urls[j] != urls[k]
    requires forall j :: i < j < |urls| ==> urls[j] !in seen
    requires forall j :: i <= j < |urls| ==> outcomes[j].Success?
    ensures |Crawl(outcomes, urls, i, seen).0| == |urls| - i
    ensures |Crawl(outcomes, urls, i, seen).1| == |urls| - i - 1
    decreases |urls| - i
  {
    if i < |urls| - 1 {
      CrawlComplete(outcomes, urls, i + 1, seen + [urls[i + 1]]);
    }
  }

  lemma CrawlAll(outcomes: seq<Result<Record, ParseError>>, urls: seq<string>)
    requires |outcomes| == |urls| > 0
    requires forall j, k :: 0 <= j < k < |urls| ==> urls[j] != urls[k]
    requires forall j :: 0 <= j < |urls| ==> outcomes[j].Success?
    ensures |Crawl(outcomes, urls, 0, [urls[0]]).0| == |urls|
    ensures [urls[0]] + Crawl(outcomes, urls, 0, [urls[0]]).1 == urls
  {
    CrawlComplete(outcomes, urls, 0, [urls[0]]);
    CrawlOrder(outcomes, urls, 0, [urls[0]]);
  }

  /** A run over M distinct identifiers whose pages all parse yields exactly
      M records, record k being the one assembled for identifier k (so it
      starts with the `id` key; RunRecordIds gives its value), and issues
      exactly M requests, one per identifier in list order. */
  lemma RunComplete(players: seq<string>, apiKey: string, fetch: string -> Page,
                    template: string -> Option<Summary>)
    requires |players| > 0
    requires forall j, k :: 0 <= j < k < |players| ==> players[j] != players[k]
    requires forall j :: 0 <= j < |players| ==> Assemble(players[j], fetch(RequestUrl(players[j], apiKey)), template).Success?
    ensures var urls := Requests(players, apiKey);
            var c := Crawl(Outcomes(players, apiKey, fetch, template), urls, 0, [urls[0]]);
            && |c.0| == |players|
            && (forall k :: 0 <= k < |players| ==>
                  Success(c.0[k]) == Assemble(players[k], fetch(RequestUrl(players[k], apiKey)), template))
            && [urls[0]] + c.1 == urls
  {
    var urls := Requests(players, apiKey);
    var outcomes := Outcomes(players, apiKey, fetch, template);
    RequestsDistinct(players, apiKey);
    OutcomesSucceed(players, apiKey, fetch, template);
    CrawlEvery(outcomes, urls);
    var c := Crawl(outcomes, urls, 0, [urls[0]]);
    forall k | 0 <= k < |players|
      ensures Success(c.0[k]) == Assemble(players[k], fetch(RequestUrl(players[k], apiKey)), template)
    {
      OutcomeAt(players, apiKey, fetch, template, k);
    }
  }

  /** In such a run, record k holds identifier k under its leading `id`
      key whenever no later dict of player k's page has an `id` key. */
  lemma RunRecordIds(players: seq<string>, apiKey: string, fetch: string -> Page,
                     template: string -> Option<Summary>)
    requires |players| > 0
    requires forall j, k :: 0 <= j < k < |players| ==> players[j] != players[k]
    requires forall j :: 0 <= j < |players| ==> Assemble(players[j], fetch(RequestUrl(players[j], apiKey)), template).Success?
    ensures var urls := Requests(players, apiKey);
            var c := Crawl(Outcomes(players, apiKey, fetch, template), urls, 0, [urls[0]]);
            && |c.0| == |players|
            && forall k :: 0 <= k < |players| && KeepsId(fetch(RequestUrl(players[k], apiKey))) ==>
                 c.0[k] != [] && c.0[k][0] == (IdKey, Str(players[k]))
  {
    RunComplete(players, apiKey, fetch, template);
    var urls := Requests(players, apiKey);
    var c := Crawl(Outcomes(players, apiKey, fetch, template), urls, 0, [urls[0]]);
    forall k | 0 <= k < |players| && KeepsId(fetch(RequestUrl(players[k], apiKey)))
      ensures c.0[k] != [] && c.0[k][0] == (IdKey, Str(players[k]))
    {
      AssembledStartsWithId(players[k], fetch(RequestUrl(players[k], apiKey)), template);
    }
  }

  /** The crawl over distinct requests whose outcomes are all records
      yields every outcome, in order, and requests every URL. */
  lemma CrawlEvery(outcomes: seq<Result<Record, ParseError>>, urls: seq<string>)
    requires |outcomes| == |urls| > 0
    requires forall j, k :: 0 <= j < k < |urls| ==> urls[j] != urls[k]
    requires forall j :: 0 <= j < |urls| ==> outcomes[j].Success?
    ensures var c := Crawl(outcomes, urls, 0, [urls[0]]);
            && |c.0| == |urls|
            && (forall k :: 0 <= k < |urls| ==> outcomes[k] == Success(c.0[k]))
            && [urls[0]] + c.1 == urls
  {
    CrawlAll(outcomes, urls);
    CrawlOrder(outcomes, urls, 0, [urls[0]]);
  }

  lemma RequestsDistinct(players: seq<string>, apiKey: string)
    requires forall j, k :: 0 <= j < k < |players| ==> players[j] != players[k]
    ensures forall j, k :: 0 <= j < k < |players| ==> Requests(players, apiKey)[j] != Requests(players, apiKey)[k]
  {
    forall j, k | 0 <= j < k < |players| ensures Requests(players, apiKey)[j] != Requests(players, apiKey)[k] {
      RequestAt(players, apiKey, j);
      RequestAt(players, apiKey, k);
      RequestUrlInjective(players[j], players[k], apiKey);
    }
  }

  lemma OutcomesSucceed(players: seq<string>, apiKey: string, fetch: string -> Page, template: string -> Option<Summary>)
    requires forall j :: 0 <= j < |players| ==> Assemble(players[j], fetch(RequestUrl(players[j], apiKey)), template).Success?
    ensures forall j :: 0 <= j < |players| ==> Outcomes(players, apiKey, fetch, template)[j].Success?
  {
    forall j | 0 <= j < |players| ensures Outcomes(players, apiKey, fetch, template)[j].Success? {
      OutcomeAt(players, apiKey, fetch, template, j);
    }
  }

  /** Every record a crawl yields starts with the `id` key, and holds the
      identifier of its player there unless a later dict of that page has
      an `id` key. */
  lemma RecordsStartWithId(players: seq<string>, apiKey: string, fetch: string -> Page,
                           template: string -> Option<Summary>, i: nat, seen: seq<string>)
    requires i < |players|
    ensures var c := Crawl(Outcomes(players, apiKey, fetch, template), Requests(players, apiKey), i, seen);
            forall k :: 0 <= k < |c.0| ==>
              && c.0[k] != [] && c.0[k][0].0 == IdKey
              && (KeepsId(fetch(RequestUrl(players[i + k], apiKey))) ==> c.0[k][0] == (IdKey, Str(players[i + k])))
  {
    var c := Crawl(Outcomes(players, apiKey, fetch, template), Requests(players, apiKey), i, seen);
    CrawlOrder(Outcomes(players, apiKey, fetch, template), Requests(players, apiKey), i, seen);
    forall k | 0 <= k < |c.0|
      ensures c.0[k] != [] && c.0[k][0].0 == IdKey
      ensures KeepsId(fetch(RequestUrl(players[i + k], apiKey))) ==> c.0[k][0] == (IdKey, Str(players[i + k]))
    {
      OutcomeAt(players, apiKey, fetch, template, i + k);
      AssembledStartsWithId(players[i + k], fetch(RequestUrl(players[i + k], apiKey)), template);
    }
  }

  /** A repeated identifier right after the first one ends the run after one
      record: its request is the start request again, which the duplicate
      filter drops. */
  lemma RepeatStops(players: seq<string>, apiKey: string, fetch: string -> Page,
                    template: string -> Option<Summary>)
    requires |players| >= 2 && players[1] == players[0]
    ensures var urls := Requests(players, apiKey);
            |Crawl(Outcomes(players, apiKey, fetch, template), urls, 0, [urls[0]]).0| <= 1
  {
    RequestAt(players, apiKey, 0);
    RequestAt(players, apiKey, 1);
  }

  /** The crawl from player `i` moves on to player `j`: a loop that has
      yielded `records` and requested `seen`, with the crawl from `i`
      still to come, yields the record of `i` and requests `j`'s URL. */
  lemma CrawlAdvance(outcomes: seq<Result<Record, ParseError>>, urls: seq<string>, i: nat, j: nat,
                     seen: seq<string>, records: seq<Record>, total: (seq<Record>, seq<string>))
    requires |outcomes| == |urls| && j == i + 1 && j < |urls| && |seen| > 0
    requires outcomes[i].Success? && urls[j] !in seen
    requires records + Crawl(outcomes, urls, i, seen).0 == total.0
    requires seen + Crawl(outcomes, urls, i, seen).1 == [seen[0]] + total.1
    ensures (records + [outcomes[i].value]) + Crawl(outcomes, urls, j, seen + [urls[j]]).0 == total.0
    ensures (seen + [urls[j]]) + Crawl(outcomes, urls, j, seen + [urls[j]]).1 == [seen[0]] + total.1
  {
    var rest := Crawl(outcomes, urls, j, seen + [urls[j]]);
    assert Crawl(outcomes, urls, i, seen).0 == [outcomes[i].value] + rest.0;
    assert Crawl(outcomes, urls, i, seen).1 == [urls[j]] + rest.1;
    Regroup(records, [outcomes[i].value], rest.0, total.0);
    Regroup(seen, [urls[j]], rest.1, [seen[0]] + total.1);
  }

  // Associativity, stated once so that CrawlAdvance stays cheap to verify.
  lemma Regroup<T>(a: seq<T>, x: seq<T>, b: seq<T>, t: seq<T>)
    requires a + (x + b) == t
    ensures (a + x) + b == t
  {
  }

  /** The crawl from player `i` ends there: the loop has yielded all of
      its records (with the record of `i` if there is one) and requested
      all of its URLs. */
  lemma CrawlStop(outcomes: seq<Result<Record, ParseError>>, urls: seq<string>, i: nat, j: nat,
                  seen: seq<string>, records: seq<Record>, total: (seq<Record>, seq<string>))
    requires |outcomes| == |urls| && j == i + 1 && i < |urls| && |seen| > 0
    requires !(outcomes[i].Success? && j < |urls| && urls[j] !in seen)
    requires records + Crawl(outcomes, urls, i, seen).0 == total.0
    requires seen + Crawl(outcomes, urls, i, seen).1 == [seen[0]] + total.1
    ensures records + (if outcomes[i].Success? then [outcomes[i].value] else []) == total.0
    ensures seen == [seen[0]] + total.1
  {
    assert seen + [] == seen;
  }

  /** The spider object: the API key and identifier list fixed by the
      constructor, and the cursor `player_count` that `parse` advances. */
  class InfoSpider {
    const apiKey: string
    const loaded: bool
    const players: seq<string>
    var playerCount: int

    /** The cursor stays on the list (or at 0 when the list is empty). */
    ghost predicate Valid()
      reads this
    {
      playerCount == 0 || 0 <= playerCount < |players|
    }

    /** `__init__(api_key)`: a non-empty key replaces the class default "";
        `file` is the content of the identifier file, None when opening it
        fails.  The cursor starts at 0. */
    constructor (key: Option<string>, file: Option<seq<string>>)
      ensures apiKey == (if key.Some? && key.value != "" then key.value else "")
      ensures loaded == file.Some?
      ensures players == (if file.Some? then file.value else [])
      ensures playerCount == 0
      ensures Valid()
    {
      apiKey := if key.Some? && key.value != "" then key.value else "";
      loaded := file.Some?;
      players := if file.Some? then file.value else [];
      playerCount := 0;
    }

    /** `start_requests`: one request, for the player under the cursor. */
    method StartRequests() returns (r: Result<seq<string>, StartError>)
      requires Valid()
      ensures !loaded ==> r == Failure(NotLoaded)
      ensures loaded && |players| == 0 ==> r == Failure(NoPlayers)
      ensures loaded && |players| > 0 ==> r == Success([RequestUrl(players[playerCount], apiKey)])
    {
      if !loaded {
        return Failure(NotLoaded);
      }
      if |players| == 0 {
        return Failure(NoPlayers);
      }
      var url := DetailPageUrl(players[playerCount]);
      return Success([ApiUrl(url, apiKey)]);
    }

    /** `parse` on the page of the player under the cursor: the record it
        yields (or why it raises), and the follow-up request.  The cursor
        moves by exactly one, and only after a record was yielded for a
        player that is not the last. */
    method Parse(page: Page, template: string -> Option<Summary>) returns (r: Result<Record, ParseError>, next: Option<string>)
      requires Valid() && 0 <= playerCount < |players|
      modifies this
      ensures Valid() && 0 <= playerCount < |players|
      ensures r == Assemble(players[old(playerCount)], page, template)
      ensures r.Success? && old(playerCount) < |players| - 1 ==>
                playerCount == old(playerCount) + 1 && next == Some(RequestUrl(players[playerCount], apiKey))
      ensures !(r.Success? && old(playerCount) < |players| - 1) ==> playerCount == old(playerCount) && next == None
    {
      r := Assemble(players[playerCount], page, template);
      next := None;
      if r.Success? && playerCount < |players| - 1 {
        playerCount := playerCount + 1;
        var url := DetailPrefix + players[playerCount] + DetailSuffix;
        next := Some(ApiUrl(url, apiKey));
      }
    }

    /** One turn of the engine: the page of the scheduled request is
        fetched and handed to `parse`. */
    method Visit(url: string, fetch: string -> Page, template: string -> Option<Summary>)
      returns (r: Result<Record, ParseError>, next: Option<string>)
      requires Valid() && 0 <= playerCount < |players|
      requires url == Requests(players, apiKey)[playerCount]
      modifies this
      ensures Valid() && 0 <= playerCount < |players|
      ensures r == Outcomes(players, apiKey, fetch, template)[old(playerCount)]
      ensures r.Success? && old(playerCount) < |players| - 1 ==>
                playerCount == old(playerCount) + 1 && next == Some(Requests(players, apiKey)[playerCount])
      ensures !(r.Success? && old(playerCount) < |players| - 1) ==> playerCount == old(playerCount) && next == None
    {
      OutcomeAt(players, apiKey, fetch, template, playerCount);
      RequestAt(players, apiKey, playerCount);
      var page := fetch(url);
      r, next := Parse(page, template);
      if next.Some? {
        RequestAt(players, apiKey, playerCount);
      }
    }

    /** The crawl as the engine drives it: the start request, then each
        scheduled request in turn, fetched with `fetch` and handed to
        `parse`, until no new request is scheduled.  A follow-up URL that
        was already requested is dropped by the duplicate filter. */
    method Run(fetch: string -> Page, template: string -> Option<Summary>) returns (records: seq<Record>, requests: seq<string>)
      requires Valid() && loaded && |players| > 0
      modifies this
      ensures var urls := Requests(players, apiKey);
              var c := Crawl(Outcomes(players, apiKey, fetch, template), urls, old(playerCount), [urls[old(playerCount)]]);
              records == c.0 && requests == [urls[old(playerCount)]] + c.1
      ensures Valid() && old(playerCount) <= playerCount < |players|
    {
      ghost var outcomes := Outcomes(players, apiKey, fetch, template);
      ghost var urls := Requests(players, apiKey);
      ghost var i0 := playerCount;
      var start := StartRequests();
      var url := start.value[0];
      RequestAt(players, apiKey, i0);
      ghost var total := Crawl(outcomes, urls, i0, [url]);
      requests := [url];
      records := [];
      while true
        invariant Valid() && 0 <= i0 <= playerCount < |players|
        invariant |requests| >= 1 && requests[0] == urls[i0]
        invariant url == urls[playerCount] && playerCount == i0 + |requests| - 1
        invariant records + Crawl(outcomes, urls, playerCount, requests).0 == total.0
        invariant requests + Crawl(outcomes, urls, playerCount, requests).1 == [requests[0]] + total.1
        decreases |players| - playerCount
      {
        ghost var i := playerCount;
        ghost var before := (records, requests);
        var r, next := Visit(url, fetch, template);
        if r.Success? {
          records := records + [r.value];
        }
        if next.None? || next.value in requests {
          if next.Some? {
            CrawlStop(outcomes, urls, i, playerCount, before.1, before.0, total);
            assert playerCount == i0 + |requests|;
          } else {
            CrawlStop(outcomes, urls, i, i + 1, before.1, before.0, total);
            assert playerCount == i0 + |requests| - 1;
          }
          break;
        }
        CrawlAdvance(outcomes, urls, i, playerCount, before.1, before.0, total);
        url := next.value;
        requests := requests + [url];
      }
    }
  }
}
