/** The listing collector (`collect_player_url`): it requests the first
    listing page of players sorted by overall rating, yields one item per
    player link found on it, requests one more page 60 players further on,
    and stops. */
module PlayersUrls {
  import opened Wrappers
  import opened Dicts
  import opened Proxy
  import opened PlayerRecord

  /** The module-level `api_key`: every request carries this (empty) key. */
  const ApiKey: string := ""

  const ListingPrefix: string := "https://sofifa.com/players?col=oa&sort=desc&offset="

  /** The listing the start request asks for. */
  const StartListing: string := "https://sofifa.com/players?col=oa&sort=desc&offset=0"

  /** How far `parse` moves the offset, and the bound below which it does. */
  const PageStep: int := 60

  /** The key of the one field of every item. */
  const PlayerUrlKey: Key := Some("player_url")

  // ---- str() on a non-negative int ------------------------------------------

  function DigitChar(d: int): (c: char)
    requires 0 <= d < 10
    ensures '0' <= c <= '9' && c as int - '0' as int == d
  {
    ('0' as int + d) as char
  }

  /** `str(n)`: the decimal digits of `n`, most significant first, with no
      leading zero. */
  function Decimal(n: nat): (s: string)
    ensures |s| >= 1 && (s[0] == '0' ==> n == 0)
    ensures forall i :: 0 <= i < |s| ==> '0' <= s[i] <= '9'
  {
    if n < 10 then [DigitChar(n)] else Decimal(n / 10) + [DigitChar(n % 10)]
  }

  /** The inverse of `Decimal`: reads back a non-empty string of decimal
      digits, and gives None for any other string. */
  function ParseDecimal(s: string): (r: Option<nat>)
    ensures r.Some? <==> |s| >= 1 && forall i :: 0 <= i < |s| ==> '0' <= s[i] <= '9'
  {
    if s == [] || !('0' <= s[|s| - 1] <= '9') then None
    else
      var d := s[|s| - 1] as int - '0' as int;
      if |s| == 1 then Some(d)
      else match ParseDecimal(s[..|s| - 1])
        case None => None
        case Some(m) => Some(m * 10 + d)
  }

  /** `int(str(n)) == n`. */
  lemma {:induction false} DecimalRoundTrip(n: nat)
    ensures ParseDecimal(Decimal(n)) == Some(n)
  {
    if n >= 10 {
      var s := Decimal(n);
      DecimalRoundTrip(n / 10);
      assert s[..|s| - 1] == Decimal(n / 10);
    }
  }

  /** Different offsets are written differently. */
  lemma DecimalInjective(m: nat, n: nat)
    ensures Decimal(m) == Decimal(n) <==> m == n
  {
    DecimalRoundTrip(m);
    DecimalRoundTrip(n);
  }

  // ---- Listing URLs and requests --------------------------------------------

  /** The listing page at `offset`. */
  function ListingUrl(offset: nat): (u: string)
    ensures |u| == |ListingPrefix| + |Decimal(offset)|
    ensures u[..|ListingPrefix|] == ListingPrefix
  {
    ListingPrefix + Decimal(offset)
  }

  /** A `scrapy.Request` through the proxy: the page it fetches; its URL
      is the one `get_zenrows_api_url` builds for that page with the
      module's key. */
  datatype ProxyRequest = ProxyRequest(target: string)
  {
    function Url(): string
    {
      ApiUrl(target, ApiKey)
    }
  }

  /** Two requests have the same URL exactly when they fetch the same page,
      so the duplicate filter, which compares URLs, compares requests. */
  lemma SameUrlSameRequest(a: ProxyRequest, b: ProxyRequest)
    ensures a.Url() == b.Url() <==> a == b
  {
    ApiUrlInjective(a.target, b.target, ApiKey);
  }

  /** The proxy request for the listing page at `offset`. */
  function ListingRequest(offset: nat): string
  {
    ProxyRequest(ListingUrl(offset)).Url()
  }

  /** The start listing is the one at offset 0. */
  lemma StartIsFirstListing()
    ensures ListingUrl(0) == StartListing
  {
    assert Decimal(0) == "0";
  }

  /** The offset can be read back from a listing URL. */
  lemma ListingOffset(offset: nat)
    ensures ParseDecimal(ListingUrl(offset)[|ListingPrefix|..]) == Some(offset)
  {
    assert ListingUrl(offset)[|ListingPrefix|..] == Decimal(offset);
    DecimalRoundTrip(offset);
  }

  /** Listing pages for different offsets differ. */
  lemma ListingUrlInjective(m: nat, n: nat)
    ensures ListingUrl(m) == ListingUrl(n) <==> m == n
  {
    if ListingUrl(m) == ListingUrl(n) {
      assert ListingUrl(m)[|ListingPrefix|..] == Decimal(m);
      assert ListingUrl(n)[|ListingPrefix|..] == Decimal(n);
      DecimalInjective(m, n);
    }
  }

  /** Listing requests for different offsets differ, so the duplicate
      filter never drops one. */
  lemma ListingRequestInjective(m: nat, n: nat)
    ensures ListingRequest(m) == ListingRequest(n) <==> m == n
  {
    ApiUrlInjective(ListingUrl(m), ListingUrl(n), ApiKey);
    ListingUrlInjective(m, n);
  }

  /** Every listing request has the shape the builder promises: the
      endpoint, the empty key, `&`, then `urlencode` of the three
      parameters in order. */
  lemma ListingRequestShape(offset: nat)
    ensures ListingRequest(offset) == Endpoint + "&" + FormEncode(Params(ListingUrl(offset)))
  {
    var u := ListingUrl(offset);
    QueryIsFormEncoded(u);
    assert Endpoint + ApiKey == Endpoint;
  }

  /** The key is empty, so `apikey=` is followed at once by `&`. */
  lemma EmptyKeyInRequest(offset: nat)
    ensures |ListingRequest(offset)| > |Endpoint|
    ensures ListingRequest(offset)[|Endpoint| - 7..|Endpoint| + 1] == "apikey=&"
  {
    var q := Query(ListingUrl(offset));
    assert ListingRequest(offset) == (Endpoint + "&") + q;
    assert Endpoint[|Endpoint| - 7..] == "apikey=";
    assert (Endpoint + "&")[|Endpoint| - 7..] == "apikey=&";
  }

  // ---- Items -------------------------------------------------------------------

  /** The item `{'player_url': m}` yielded for one match. */
  function Item(m: string): (r: Record)
    ensures Valid(r) && Keys(r) == [PlayerUrlKey]
    ensures Lookup(r, PlayerUrlKey) == Some(Str(m))
  {
    [(PlayerUrlKey, Str(m))]
  }

  /** The items yielded for `matches`, one per match in match order. */
  function Items(matches: seq<string>): (items: seq<Record>)
    ensures |items| == |matches|
  {
    if matches == [] then [] else [Item(matches[0])] + Items(matches[1..])
  }

  /** Item `k` is the one for match `k`. */
  lemma {:induction false} ItemsAt(matches: seq<string>)
    ensures forall k :: 0 <= k < |matches| ==> Items(matches)[k] == Item(matches[k])
  {
    if matches != [] {
      ItemsAt(matches[1..]);
      forall k | 0 < k < |matches| ensures Items(matches)[k] == Item(matches[k]) {
        assert Items(matches)[k] == Items(matches[1..])[k - 1];
      }
    }
  }

  /** What the detail collector reads back from an item: `item['player_url']`. */
  function PlayerUrlOf(item: Record): Option<string>
  {
    match Lookup(item, PlayerUrlKey)
    case Some(v) => if v.Str? then Some(v.s) else None
    case None => None
  }

  /** Every item is a one-key dict, and reading `player_url` back from the
      items gives the matches again, in order and with repeats. */
  lemma ItemsRoundTrip(matches: seq<string>)
    ensures forall k :: 0 <= k < |matches| ==> Valid(Items(matches)[k]) && Keys(Items(matches)[k]) == [PlayerUrlKey]
    ensures forall k :: 0 <= k < |matches| ==> PlayerUrlOf(Items(matches)[k]) == Some(matches[k])
  {
    forall k | 0 <= k < |matches|
      ensures Keys(Items(matches)[k]) == [PlayerUrlKey]
      ensures PlayerUrlOf(Items(matches)[k]) == Some(matches[k])
    {
      ItemsAt(matches);
      var item := Items(matches)[k];
      assert item == [(PlayerUrlKey, Str(matches[k]))];
      assert Keys(item)[0] == PlayerUrlKey;
      assert item[1..] == [];
    }
  }

  /** The items of two pages are the items of their matches together. */
  lemma {:induction false} ItemsAppend(a: seq<string>, b: seq<string>)
    ensures Items(a) + Items(b) == Items(a + b)
  {
    if a == [] {
      assert a + b == b;
    } else {
      var ab := a + b;
      assert ab[0] == a[0] && ab[1..] == a[1..] + b;
      ItemsAppend(a[1..], b);
      assert Items(ab) == [Item(a[0])] + Items(ab[1..]);
      assert [Item(a[0])] + (Items(a[1..]) + Items(b)) == ([Item(a[0])] + Items(a[1..])) + Items(b);
    }
  }

  // ---- The spider ------------------------------------------------------------

  class UrlSpider {
    var count: int

    /** The offset is 0 before the first `parse` and 60 after it. */
    ghost predicate Valid()
      reads this
    {
      count == 0 || count == PageStep
    }

    /** `__init__`: the offset starts at 0. */
    constructor ()
      ensures count == 0 && Valid()
    {
      count := 0;
    }

    /** `start_requests`: one request, for the listing at offset 0. */
    method StartRequests() returns (reqs: seq<ProxyRequest>)
      ensures reqs == [ProxyRequest(ListingUrl(0))]
    {
      StartIsFirstListing();
      reqs := [ProxyRequest(StartListing)];
    }

    /** `parse` on the links that `td a` and `/player/(\w*)/` find on a
        page: one item per match, in order, repeats kept; then, while the
        offset is below 60, the offset moves on by 60 and the listing at
        the new offset is requested.  So from 0 the offset goes to 60 once
        and stays there. */
    method Parse(matches: seq<string>) returns (items: seq<Record>, next: Option<ProxyRequest>)
      requires Valid()
      modifies this
      ensures Valid()
      ensures items == Items(matches)
      ensures old(count) == 0 ==> count == PageStep && next == Some(ProxyRequest(ListingUrl(count)))
      ensures old(count) == PageStep ==> count == PageStep && next == None
    {
      items := [];
      for i := 0 to |matches|
        invariant |items| == i
        invariant forall k :: 0 <= k < i ==> items[k] == Item(matches[k])
      {
        items := items + [Item(matches[i])];
      }
      ItemsAt(matches);
      next := None;
      if count < PageStep {
        count := count + PageStep;
        var nextPage := ListingPrefix + Decimal(count);
        next := Some(ProxyRequest(nextPage));
      }
    }

    /** The crawl as the engine drives it: the start request, then each
        scheduled request in turn, the matches on its page given by
        `pages` and handed to `parse`, until no new request is scheduled.
        A follow-up already requested is dropped by the duplicate filter.
        From a fresh spider that is exactly two listing pages, offsets 0
        and 60, whatever they hold. */
    method Run(pages: string -> seq<string>) returns (items: seq<Record>, requests: seq<ProxyRequest>)
      requires Valid()
      modifies this
      ensures count == PageStep
      ensures old(count) == 0 ==>
                requests == [ProxyRequest(ListingUrl(0)), ProxyRequest(ListingUrl(PageStep))]
                && items == Items(pages(ListingUrl(0)) + pages(ListingUrl(PageStep)))
      ensures old(count) == PageStep ==>
                requests == [ProxyRequest(ListingUrl(0))] && items == Items(pages(ListingUrl(0)))
    {
      ghost var u0, u1 := ListingUrl(0), ListingUrl(PageStep);
      ghost var c0 := count;
      ListingUrlInjective(0, PageStep);
      var start := StartRequests();
      var request := start[0];
      requests := [request];
      items := [];
      while true
        invariant Valid() && |requests| >= 1 && request == requests[|requests| - 1]
        invariant count == c0 ==> requests == [ProxyRequest(u0)] && items == []
        invariant count != c0 ==>
                    c0 == 0 && count == PageStep && requests == [ProxyRequest(u0), ProxyRequest(u1)]
                    && items == Items(pages(u0))
        decreases PageStep - count
      {
        ghost var first := count == c0;
        var its, next := Parse(pages(request.target));
        items := items + its;
        if next.None? || next.value in requests {
          if !first {
            ItemsAppend(pages(u0), pages(u1));
          }
          break;
        }
        request := next.value;
        requests := requests + [request];
      }
    }
  }
}
