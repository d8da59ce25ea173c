/** `NetworkMonitorAddon` (src/filter_addon.py): the mitmproxy addon that
    decides, request by request, whether the rules block it, answers a
    blocked request with a 403 block page, and logs every response. */
module FilterAddon {
  import opened Wrappers
  import opened Text
  import opened Escaping
  import opened Http
  import opened Monitor

  /** Which rule blocked a request. */
  datatype Reason = BlockedDomain(domain: string) | BlockedKeyword(keyword: string)

  /** `_should_block`'s pair: `(False, None)` is `Allow`, and
      `(True, reason)` is `Block` with the reason's text `ReasonText`. */
  datatype Decision = Allow | Block(reason: Reason)

  /** The reason strings of lines 48 and 53. */
  function ReasonText(reason: Reason): string
  {
    match reason
    case BlockedDomain(d) => "Blocked Domain: " + d
    case BlockedKeyword(k) => "Blocked Keyword: '" + k + "'"
  }

  /** Some domain rule occurs in the host. */
  predicate DomainHit(domains: set<string>, host: string)
  {
    exists d :: d in domains && Contains(host, d)
  }

  /** Some keyword rule occurs in the URL. */
  predicate KeywordHit(keywords: set<string>, url: string)
  {
    exists k :: k in keywords && Contains(url, k)
  }

  /** An empty rule occurs in every host, so it would block everything. */
  lemma EmptyRuleMatchesEveryHost(host: string)
    ensures DomainHit({""}, host)
  {
    assert "" <= host;
  }

  /** With the rules in normal form no rule is empty, so an empty host or
      URL is never blocked. */
  lemma NormalRulesSkipEmpty(fm: NetworkFilterManager)
    requires fm.RulesNormal()
    ensures !DomainHit(fm.blockedDomains, "") && !KeywordHit(fm.blockedKeywords, "")
  {
  }

  /** The decisions `_should_block` can return for the lower-cased host and
      URL, whatever order the sets are iterated in: a domain rule found in
      the host; otherwise a keyword rule found in the URL; otherwise no
      block. */
  predicate Justified(domains: set<string>, keywords: set<string>, host: string, url: string, decision: Decision)
  {
    match decision
    case Block(BlockedDomain(d)) => d in domains && Contains(host, d)
    case Block(BlockedKeyword(k)) => !DomainHit(domains, host) && k in keywords && Contains(url, k)
    case Allow => !DomainHit(domains, host) && !KeywordHit(keywords, url)
  }

  /** Only the reported rule is left to iteration order: whether a request
      is blocked, and by which kind of rule, is fixed by the rules, and a
      matching domain always takes precedence over any keyword. */
  lemma VerdictIsDetermined(domains: set<string>, keywords: set<string>, host: string, url: string, d1: Decision, d2: Decision)
    requires Justified(domains, keywords, host, url, d1)
    requires Justified(domains, keywords, host, url, d2)
    ensures d1.Allow? <==> d2.Allow?
    ensures d1.Block? ==> d2.Block? && (d1.reason.BlockedDomain? <==> d2.reason.BlockedDomain?)
    ensures d1.Block? && d1.reason.BlockedDomain? <==> DomainHit(domains, host)
    ensures d1.Allow? <==> !DomainHit(domains, host) && !KeywordHit(keywords, url)
  {
  }

  /** The replacement chain of line 59. */
  const UrlSteps := [Step('&', "&amp;"), Step('<', "&lt;"), Step('>', "&gt;")]

  /** The entities the URL escape produces. */
  const UrlEntities := ["&amp;", "&lt;", "&gt;"]

  /** The URL as the block page shows it. */
  function EscapeUrl(url: string): string
  {
    ReplaceChain(url, UrlSteps)
  }

  /** What the escape does to one character. */
  function EscapeUrlChar(c: char): string
  {
    if c == '&' then "&amp;" else if c == '<' then "&lt;" else if c == '>' then "&gt;" else [c]
  }

  /** Decoding the three entities. */
  function UnescapeUrl(t: string): string
    decreases |t|
  {
    if t == [] then []
    else if "&amp;" <= t then "&" + UnescapeUrl(t[5..])
    else if "&lt;" <= t then "<" + UnescapeUrl(t[4..])
    else if "&gt;" <= t then ">" + UnescapeUrl(t[4..])
    else [t[0]] + UnescapeUrl(t[1..])
  }

  lemma EscapeUrlCharIsChain(c: char)
    ensures EscapeUrlChar(c) == ReplaceChain([c], UrlSteps)
  {
    if c == '&' {
      ReplaceChainSingle(c, UrlSteps, 0);
    } else if c == '<' {
      ReplaceChainSingle(c, UrlSteps, 1);
    } else if c == '>' {
      ReplaceChainSingle(c, UrlSteps, 2);
    } else {
      ReplaceChainUntouched([c], UrlSteps);
    }
  }

  /** Each character becomes itself (when it is not `&`) or one entity,
      and never a `<` or `>`. */
  lemma EscapeUrlCharShape(c: char)
    ensures (EscapeUrlChar(c) == [c] && c != '&') || EscapeUrlChar(c) in UrlEntities
    ensures '<' !in EscapeUrlChar(c) && '>' !in EscapeUrlChar(c)
  {
  }

  lemma {:induction false} UnescapeEscapedUrl(s: string)
    ensures UnescapeUrl(FlatMap(s, EscapeUrlChar)) == s
  {
    if s != [] {
      var c := s[0];
      var rest := FlatMap(s[1..], EscapeUrlChar);
      var t := EscapeUrlChar(c) + rest;
      UnescapeEscapedUrl(s[1..]);
      if c == '&' {
        assert "&amp;" <= t && t[5..] == rest;
      } else if c == '<' {
        assert t[1] == 'l';
        assert "&lt;" <= t && t[4..] == rest;
      } else if c == '>' {
        assert t[1] == 'g';
        assert "&gt;" <= t && t[4..] == rest;
      } else {
        assert t[0] == c && t[1..] == rest;
      }
      assert s == [c] + s[1..];
    }
  }

  /** The escape is the character-by-character translation `EscapeUrlChar`. */
  lemma EscapeUrlIsPerChar(url: string)
    ensures EscapeUrl(url) == FlatMap(url, EscapeUrlChar)
  {
    forall c | true
      ensures EscapeUrlChar(c) == ReplaceChain([c], UrlSteps)
    {
      EscapeUrlCharIsChain(c);
    }
    ReplaceChainPerChar(url, UrlSteps, EscapeUrlChar);
  }

  /** The escaped URL holds no `<` or `>`; because `&` is replaced first,
      every `&` in it begins one of the three entities and none is escaped
      twice, so decoding the entities gives back the URL. */
  lemma EscapeUrlSafe(url: string)
    ensures '<' !in EscapeUrl(url) && '>' !in EscapeUrl(url)
    ensures AmpersandsBeginEntities(EscapeUrl(url), UrlEntities)
    ensures UnescapeUrl(EscapeUrl(url)) == url
  {
    EscapeUrlIsPerChar(url);
    forall c | true
      ensures (EscapeUrlChar(c) == [c] && c != '&') || EscapeUrlChar(c) in UrlEntities
      ensures '<' !in EscapeUrlChar(c) && '>' !in EscapeUrlChar(c)
    {
      EscapeUrlCharShape(c);
    }
    FlatMapAvoids(url, EscapeUrlChar, '<');
    FlatMapAvoids(url, EscapeUrlChar, '>');
    UrlEntitiesAreEntities();
    FlatMapEntities(url, EscapeUrlChar, UrlEntities);
    UnescapeEscapedUrl(url);
  }

  lemma UrlEntitiesAreEntities()
    ensures forall k :: 0 <= k < |UrlEntities| ==> IsEntity(UrlEntities[k])
  {
    assert IsEntity(UrlEntities[0]) && IsEntity(UrlEntities[1]) && IsEntity(UrlEntities[2]);
  }

  class NetworkMonitorAddon {
    const filterManager: NetworkFilterManager

    constructor (filterManager: NetworkFilterManager)
      ensures this.filterManager == filterManager
    {
      this.filterManager := filterManager;
    }

    /** `_should_block`: the host and the URL are lower-cased, the domain
        rules are tried against the host and then the keyword rules against
        the full URL, in the sets' iteration order, and the first rule found
        decides. */
    method ShouldBlock(request: HttpRequest) returns (decision: Decision)
      ensures Justified(filterManager.blockedDomains, filterManager.blockedKeywords,
                        Lower(request.prettyHost), Lower(request.prettyUrl), decision)
    {
      var host := Lower(request.prettyHost);
      var url := Lower(request.prettyUrl);
      var domains := filterManager.blockedDomains;
      var remaining := domains;
      while remaining != {}
        invariant remaining <= domains
        invariant forall d :: d in domains && d !in remaining ==> !Contains(host, d)
        decreases |remaining|
      {
        var domain :| domain in remaining;
        if Contains(host, domain) {
          return Block(BlockedDomain(domain));
        }
        remaining := remaining - {domain};
      }
      var keywords := filterManager.blockedKeywords;
      remaining := keywords;
      while remaining != {}
        invariant remaining <= keywords
        invariant forall k :: k in keywords && k !in remaining ==> !Contains(url, k)
        decreases |remaining|
      {
        var keyword :| keyword in remaining;
        if Contains(url, keyword) {
          return Block(BlockedKeyword(keyword));
        }
        remaining := remaining - {keyword};
      }
      return Allow;
    }

    /** The `request` hook. With filtering disabled nothing happens. When
        the rules block the request, one block event (client IP, URL,
        reason) is logged and the flow's response becomes the 403 block
        page showing the escaped URL and the reason; otherwise the flow and
        the log are left as they were. */
    method Request(flow: Flow) returns (ghost decision: Decision)
      modifies flow`response, filterManager`blockLog
      ensures !filterManager.filteringEnabled ==> decision == Allow
      ensures filterManager.filteringEnabled ==>
                Justified(filterManager.blockedDomains, filterManager.blockedKeywords,
                          Lower(flow.request.prettyHost), Lower(flow.request.prettyUrl), decision)
      ensures decision.Allow? ==>
                flow.response == old(flow.response) && filterManager.blockLog == old(filterManager.blockLog)
      ensures decision.Block? ==>
                && filterManager.blockLog == old(filterManager.blockLog)
                     + [BlockEvent(ClientIp(flow.clientAddress), flow.request.prettyUrl, ReasonText(decision.reason))]
                && flow.response == Some(BlockPage(EscapeUrl(flow.request.prettyUrl), ReasonText(decision.reason)))
    {
      if !filterManager.filteringEnabled {
        return Allow;
      }
      var d := ShouldBlock(flow.request);
      decision := d;
      if d.Block? {
        var clientIp := ClientIp(flow.clientAddress);
        var reason := ReasonText(d.reason);
        filterManager.LogBlockedRequest(clientIp, flow.request.prettyUrl, reason);
        flow.response := Some(BlockPage(EscapeUrl(flow.request.prettyUrl), reason));
      }
    }

    /** The `response` hook: every flow that reaches it is logged once,
        flagged as blocked exactly when its status is 403, whether the block
        page or the upstream server produced it. */
    method Response(flow: Flow)
      requires flow.response.Some?
      modifies filterManager`requestLog
      ensures filterManager.requestLog == old(filterManager.requestLog)
                + [RequestEvent(flow.request, flow.response.value, ClientIp(flow.clientAddress),
                                flow.response.value.StatusCode() == 403)]
    {
      var clientIp := ClientIp(flow.clientAddress);
      var response := flow.response.value;
      var isBlocked := response.StatusCode() == 403;
      filterManager.LogRequest(flow.request, response, clientIp, isBlocked);
    }
  }

  /** A request the rules block, once its response hook runs, is logged as
      blocked, with exactly one block event and one request event. */
  method BlockedRequestIsLoggedBlocked(addon: NetworkMonitorAddon, flow: Flow)
    requires addon.filterManager.filteringEnabled
    requires DomainHit(addon.filterManager.blockedDomains, Lower(flow.request.prettyHost))
    modifies flow`response, addon.filterManager`blockLog, addon.filterManager`requestLog
    ensures |addon.filterManager.blockLog| == |old(addon.filterManager.blockLog)| + 1
    ensures |addon.filterManager.requestLog| == |old(addon.filterManager.requestLog)| + 1
    ensures addon.filterManager.requestLog[|addon.filterManager.requestLog| - 1].blocked
  {
    ghost var decision := addon.Request(flow);
    VerdictIsDetermined(addon.filterManager.blockedDomains, addon.filterManager.blockedKeywords,
                        Lower(flow.request.prettyHost), Lower(flow.request.prettyUrl), decision, decision);
    addon.Response(flow);
  }
}
