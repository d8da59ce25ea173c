/** Example behaviours of the filter, played through the model: rules set through the API, requests through the addon,
    statistics over a concrete database. */
module Scenarios {
  import opened Wrappers
  import opened Text
  import opened RuleFile
  import opened Http
  import opened Monitor
  import opened Stats
  import opened FilterAddon
  import opened JsonData
  import opened WebInterface

  /** Posting one rule that is already in normal form stores exactly it. */
  lemma SingleNormalRule(x: string)
    requires NormalRule(x)
    ensures NormaliseRules([x]) == {x}
  {
    NormalFormFixed(x);
  }

  /** Starting with no rule files and posting the given domains. */
  method ProxyWithDomains(domains: seq<string>) returns (addon: NetworkMonitorAddon)
    ensures fresh(addon) && fresh(addon.filterManager)
    ensures addon.filterManager.filteringEnabled
    ensures addon.filterManager.blockLog == [] && addon.filterManager.requestLog == []
    ensures addon.filterManager.blockedDomains == NormaliseRules(domains)
    ensures addon.filterManager.blockedKeywords == {}
  {
    var fm := new NetworkFilterManager(map[]);
    LoadRulesWellFormed(None);
    var _ := ManageRules(fm, "domains", Post(JObject(map["rules" := RulesArray(domains)])), false);
    addon := new NetworkMonitorAddon(fm);
  }

  /** Starting with no rule files and posting the given keywords. */
  method ProxyWithKeywords(keywords: seq<string>) returns (addon: NetworkMonitorAddon)
    ensures fresh(addon) && fresh(addon.filterManager)
    ensures addon.filterManager.filteringEnabled
    ensures addon.filterManager.blockLog == [] && addon.filterManager.requestLog == []
    ensures addon.filterManager.blockedDomains == {}
    ensures addon.filterManager.blockedKeywords == NormaliseRules(keywords)
  {
    var fm := new NetworkFilterManager(map[]);
    LoadRulesWellFormed(None);
    var _ := ManageRules(fm, "keywords", Post(JObject(map["rules" := RulesArray(keywords)])), false);
    addon := new NetworkMonitorAddon(fm);
  }

  /** A domain rule blocks a subdomain of it, and is the reported rule. */
  method DomainRuleBlocksSubdomain() returns (decision: Decision)
    ensures decision == Block(BlockedDomain("ads.example.com"))
  {
    var rule := "ads.example.com";
    SingleNormalRule("ads.example.com");
    var addon := ProxyWithDomains([rule]);
    var request := HttpRequest("cdn.ads.example.com", "https://cdn.ads.example.com/banner.js");
    decision := addon.ShouldBlock(request);
    DomainDecides(rule, Lower(request.prettyHost), Lower(request.prettyUrl), decision);
  }

  /** The only rule, a domain found in the host, decides. */
  lemma DomainDecides(rule: string, host: string, url: string, decision: Decision)
    requires host == Lower("cdn.ads.example.com") && rule == "ads.example.com"
    requires Justified({rule}, {}, host, url, decision)
    ensures decision == Block(BlockedDomain(rule))
  {
    SubdomainHoldsRule();
    assert DomainHit({rule}, host);
  }

  lemma SubdomainHoldsRule()
    ensures Contains(Lower("cdn.ads.example.com"), "ads.example.com")
  {
    var host := Lower("cdn.ads.example.com");
    assert "ads.example.com" <= host[4..];
    ContainsAt(host, "ads.example.com", 4);
  }

  /** A keyword rule blocks a URL whose path holds it. */
  method KeywordRuleBlocksPath() returns (decision: Decision)
    ensures decision == Block(BlockedKeyword("casino"))
  {
    var rule := "casino";
    SingleNormalRule("casino");
    var addon := ProxyWithKeywords([rule]);
    var request := HttpRequest("shop.test", "http://shop.test/promo/casino-bonus");
    decision := addon.ShouldBlock(request);
    KeywordDecides(rule, Lower(request.prettyHost), Lower(request.prettyUrl), decision);
  }

  /** The only rule, a keyword found in the URL, decides. */
  lemma KeywordDecides(rule: string, host: string, url: string, decision: Decision)
    requires url == Lower("http://shop.test/promo/casino-bonus") && rule == "casino"
    requires Justified({}, {rule}, host, url, decision)
    ensures decision == Block(BlockedKeyword(rule))
  {
    PathHoldsKeyword();
    assert KeywordHit({rule}, url);
  }

  lemma PathHoldsKeyword()
    ensures Contains(Lower("http://shop.test/promo/casino-bonus"), "casino")
  {
    var url := Lower("http://shop.test/promo/casino-bonus");
    assert "casino" <= url[23..];
    ContainsAt(url, "casino", 23);
  }

  /** Differently cased and padded spellings of one domain, and a blank
      entry, are stored as the single normal form. */
  lemma SpellingsCollapse()
    ensures NormaliseRules(["Ads.Example.COM", " ads.example.com ", ""]) == {"ads.example.com"}
  {
    var x := "ads.example.com";
    var a, b := "Ads.Example.COM", " ads.example.com ";
    var rules := [a, b, ""];
    assert PyStrip("") == [];
    CapitalisedSpelling();
    PaddedSpelling();
    forall r | r in rules && PyStrip(r) != []
      ensures Lower(PyStrip(r)) == x
    {
      assert r == a || r == b;
    }
    assert x in NormaliseRules(rules) by {
      assert a in rules && PyStrip(a) != [];
    }
  }

  lemma CapitalisedSpelling()
    ensures PyStrip("Ads.Example.COM") == "Ads.Example.COM"
    ensures Lower("Ads.Example.COM") == "ads.example.com"
  {
    var a := "Ads.Example.COM";
    assert TrimStart(a, PyIsSpace) == a;
    assert TrimEnd(a, PyIsSpace) == a;
  }

  lemma PaddedSpelling()
    ensures PyStrip(" ads.example.com ") == "ads.example.com"
    ensures Lower("ads.example.com") == "ads.example.com"
  {
    var b, x := " ads.example.com ", "ads.example.com";
    assert TrimStart(b, PyIsSpace) == TrimStart(b[1..], PyIsSpace) == b[1..];
    assert TrimEnd(b[1..], PyIsSpace) == TrimEnd(x, PyIsSpace) == x;
  }

  /** Posting those spellings through the API stores exactly the normal form. */
  method PostedSpellingsStoredOnce() returns (addon: NetworkMonitorAddon)
    ensures addon.filterManager.blockedDomains == {"ads.example.com"}
  {
    addon := ProxyWithDomains(["Ads.Example.COM", " ads.example.com ", ""]);
    SpellingsCollapse();
  }

  /** With no rules every request is let through, and its response is
      logged once, as not blocked when the upstream status is 200. */
  method NoRulesAllowsEverything(request: HttpRequest, clientAddress: Option<string>)
    returns (addon: NetworkMonitorAddon, flow: Flow)
    ensures flow.response == Some(Upstream(200))
    ensures addon.filterManager.blockLog == []
    ensures addon.filterManager.requestLog == [RequestEvent(request, Upstream(200), ClientIp(clientAddress), false)]
  {
    addon := ProxyWithDomains([]);
    flow := new Flow(request, clientAddress, None);
    ghost var decision := addon.Request(flow);
    flow.response := Some(Upstream(200));
    addon.Response(flow);
  }

  /** With filtering disabled nothing is blocked, but the response log
      still flags an upstream 403 as blocked, since the flag is the status
      code and not the addon's own decision. */
  method DisabledFilteringStillFlags403(request: HttpRequest)
    returns (addon: NetworkMonitorAddon, flow: Flow)
    ensures addon.filterManager.blockLog == []
    ensures addon.filterManager.requestLog == [RequestEvent(request, Upstream(403), "unknown", true)]
  {
    addon := ProxyWithDomains([]);
    var _ := SetFilteringStatus(addon.filterManager, JObject(map["enabled" := JBool(false)]));
    flow := new Flow(request, None, None);
    ghost var decision := addon.Request(flow);
    flow.response := Some(Upstream(403));
    addon.Response(flow);
  }

  /** Five requests in the last 24 hours and one 25 hours old, two blocks
      in the window: the old request is not counted. */
  lemma WindowExcludesOldRequest()
    ensures var now := 200000;
            var stale := RequestRow(now - 25 * 3600, Some(100));
            var recent := [RequestRow(150000, Some(1)), RequestRow(160000, None), RequestRow(170000, Some(2)),
                          RequestRow(180000, Some(3)), RequestRow(190000, Some(4))];
            var blocks := [BlockRow(160000, "10.0.0.2", "http://a.test/", "Blocked Domain: a.test"),
                           BlockRow(170000, "10.0.0.3", "http://b.test/", "Blocked Domain: b.test")];
            var stats := GetDashboardStats(Some(Database([stale] + recent, blocks)), now, false).value;
            && stats.totalRequests == 5
            && stats.blockedRequests == 2
            && stats.totalTrafficBytes == 10
  {
    var now := 200000;
    var threshold := now - Day;
    var stale := RequestRow(now - 25 * 3600, Some(100));
    var recent := [RequestRow(150000, Some(1)), RequestRow(160000, None), RequestRow(170000, Some(2)),
                  RequestRow(180000, Some(3)), RequestRow(190000, Some(4))];
    var blocks := [BlockRow(160000, "10.0.0.2", "http://a.test/", "Blocked Domain: a.test"),
                   BlockRow(170000, "10.0.0.3", "http://b.test/", "Blocked Domain: b.test")];
    assert ([stale] + recent)[1..] == recent;
    assert Since([stale] + recent, RequestTime, threshold) == Since(recent, RequestTime, threshold);
    AllRecent(recent, RequestTime, threshold);
    AllRecent(blocks, BlockTime, threshold);
    assert Traffic(recent) == 10;
  }

  /** Rows that all fall inside the window are all kept. */
  lemma {:induction false} AllRecent<T>(rows: seq<T>, time: T -> nat, threshold: int)
    requires forall i :: 0 <= i < |rows| ==> time(rows[i]) >= threshold
    ensures Since(rows, time, threshold) == rows
  {
    if rows != [] {
      AllRecent(rows[1..], time, threshold);
    }
  }
}
