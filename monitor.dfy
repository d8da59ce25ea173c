/** `NetworkFilterManager` (src/monitor.py): the rule sets, the filtering
    toggle, the rule files and the two event logs the proxy hooks append
    to. The configuration directory is the `files` map (path to contents);
    a write that fails is chosen by the caller through a flag. */
module Monitor {
  import opened Wrappers
  import opened Text
  import opened Ordering
  import opened RuleFile
  import opened Http

  /** `config_dir / 'blocked_domains.txt'` with the default `config_dir`. */
  const BlockedDomainsPath := "config/blocked_domains.txt"
  /** `config_dir / 'blocked_keywords.txt'` with the default `config_dir`. */
  const BlockedKeywordsPath := "config/blocked_keywords.txt"

  /** Which of the two rule sets an operation targets. */
  datatype RuleKind = Domains | Keywords
  {
    function Other(): RuleKind
    {
      if Domains? then Keywords else Domains
    }

    /** The file this rule set is persisted in. */
    function Path(): string
    {
      if Domains? then BlockedDomainsPath else BlockedKeywordsPath
    }
  }

  /** One call of `log_blocked_request(client_ip, url, reason)`. */
  datatype BlockEvent = BlockEvent(clientIp: string, url: string, reason: string)

  /** One call of `log_request(flow, client_ip, is_blocked)`. */
  datatype RequestEvent = RequestEvent(request: HttpRequest, response: HttpResponse, clientIp: string, blocked: bool)

  /** The dictionary `get_status` returns. */
  datatype Status = Status(filteringEnabled: bool, blockedDomainsCount: nat, blockedKeywordsCount: nat, allowedIpsCount: nat)

  /** The contents of the file at `path`, `None` when it does not exist. */
  function ReadFile(files: map<string, string>, path: string): Option<string>
  {
    if path in files then Some(files[path]) else None
  }

  class NetworkFilterManager {
    var files: map<string, string>
    var blockedDomains: set<string>
    var blockedKeywords: set<string>
    var allowedIps: set<string>
    var filteringEnabled: bool
    var blockLog: seq<BlockEvent>
    var requestLog: seq<RequestEvent>

    /** Every rule the block decision consults is in normal form; in
        particular no rule is empty, which would be found in every host. */
    ghost predicate RulesNormal()
      reads this
    {
      && (forall r :: r in blockedDomains ==> NormalRule(r))
      && (forall r :: r in blockedKeywords ==> NormalRule(r))
    }

    /** The rule set of the given kind. */
    function Rules(kind: RuleKind): set<string>
      reads this
    {
      if kind.Domains? then blockedDomains else blockedKeywords
    }

    /** Filtering starts enabled, with no allowed IPs and empty logs, and
        both rule sets read from their files. */
    constructor (files: map<string, string>)
      ensures this.files == files
      ensures blockedDomains == LoadRules(ReadFile(files, BlockedDomainsPath))
      ensures blockedKeywords == LoadRules(ReadFile(files, BlockedKeywordsPath))
      ensures allowedIps == {} && filteringEnabled
      ensures blockLog == [] && requestLog == []
      ensures RulesNormal()
    {
      this.files := files;
      blockedDomains, blockedKeywords, allowedIps := {}, {}, {};
      filteringEnabled := true;
      blockLog, requestLog := [], [];
      new;
      LoadAllRules();
    }

    /** `load_all_rules`: both sets are replaced by what their files hold. */
    method LoadAllRules()
      modifies this`blockedDomains, this`blockedKeywords
      ensures blockedDomains == LoadRules(ReadFile(files, BlockedDomainsPath))
      ensures blockedKeywords == LoadRules(ReadFile(files, BlockedKeywordsPath))
      ensures RulesNormal()
    {
      LoadRulesFromFile(BlockedDomainsPath, Domains);
      LoadRulesFromFile(BlockedKeywordsPath, Keywords);
    }

    /** `target_set.add(rule)`. */
    method AddRule(target: RuleKind, rule: string)
      modifies this`blockedDomains, this`blockedKeywords
      ensures Rules(target) == old(Rules(target)) + {rule}
      ensures Rules(target.Other()) == old(Rules(target.Other()))
    {
      if target.Domains? {
        blockedDomains := blockedDomains + {rule};
      } else {
        blockedKeywords := blockedKeywords + {rule};
      }
    }

    /** `target_set.update(rules)`. */
    method UpdateRules(target: RuleKind, rules: set<string>)
      modifies this`blockedDomains, this`blockedKeywords
      ensures Rules(target) == old(Rules(target)) + rules
      ensures Rules(target.Other()) == old(Rules(target.Other()))
    {
      if target.Domains? {
        blockedDomains := blockedDomains + rules;
      } else {
        blockedKeywords := blockedKeywords + rules;
      }
    }

    /** `target_set.clear()`. */
    method ClearRules(target: RuleKind)
      modifies this`blockedDomains, this`blockedKeywords
      ensures Rules(target) == {}
      ensures Rules(target.Other()) == old(Rules(target.Other()))
    {
      if target.Domains? {
        blockedDomains := {};
      } else {
        blockedKeywords := {};
      }
    }

    /** `_load_rules_from_file(file_path, target_set)`: the target is
        cleared, and then every line that is not blank and not a comment
        after stripping is added lower-cased. A missing file leaves the
        target empty; the other set is not touched. */
    method LoadRulesFromFile(filePath: string, target: RuleKind)
      modifies this`blockedDomains, this`blockedKeywords
      ensures Rules(target) == LoadRules(ReadFile(files, filePath))
      ensures Rules(target.Other()) == old(Rules(target.Other()))
      ensures forall r :: r in Rules(target) ==> NormalRule(r)
    {
      ClearRules(target);
      if filePath in files {
        var lines := Lines(files[filePath]);
        var i := 0;
        while i < |lines|
          invariant 0 <= i <= |lines|
          invariant Rules(target) == ParseLines(lines[..i])
          invariant Rules(target.Other()) == old(Rules(target.Other()))
        {
          var line := PyStrip(lines[i]);
          if line != [] && line[0] != '#' {
            AddRule(target, Lower(line));
          }
          ParseLinesStep(lines, i);
          i := i + 1;
        }
        assert lines[..|lines|] == lines;
      }
      LoadRulesWellFormed(ReadFile(files, filePath));
    }

    /** `save_rules_to_file(file_path, source_set)`: the file is opened for
        writing (which empties it) and receives every rule in sorted order,
        each followed by a newline; the result is True. When opening raises
        an IOError (`openFails`), nothing is written and the result is
        False. */
    method SaveRulesToFile(filePath: string, source: set<string>, openFails: bool) returns (ok: bool)
      modifies this`files
      ensures ok == !openFails
      ensures files == if ok then old(files)[filePath := Serialise(source)] else old(files)
    {
      if openFails {
        return false;
      }
      var items := SortedElems(source);
      files := files[filePath := ""];
      var i := 0;
      while i < |items|
        invariant 0 <= i <= |items|
        invariant files == old(files)[filePath := WriteItems(items[..i])]
      {
        WriteItemsSnoc(items[..i], items[i]);
        assert items[..i + 1] == items[..i] + [items[i]];
        files := files[filePath := files[filePath] + items[i] + "\n"];
        i := i + 1;
      }
      assert items[..|items|] == items;
      ok := true;
    }

    /** `get_status`: the toggle and the sizes of the three sets. */
    method GetStatus() returns (status: Status)
      ensures status.filteringEnabled == filteringEnabled
      ensures status.blockedDomainsCount == |blockedDomains|
      ensures status.blockedKeywordsCount == |blockedKeywords|
      ensures status.allowedIpsCount == |allowedIps|
    {
      status := Status(filteringEnabled, |blockedDomains|, |blockedKeywords|, |allowedIps|);
    }

    /** `log_blocked_request(client_ip, url, reason)`: one block event is
        appended. */
    method LogBlockedRequest(clientIp: string, url: string, reason: string)
      modifies this`blockLog
      ensures blockLog == old(blockLog) + [BlockEvent(clientIp, url, reason)]
    {
      blockLog := blockLog + [BlockEvent(clientIp, url, reason)];
    }

    /** `log_request(flow, client_ip, is_blocked)`: one request event is
        appended. */
    method LogRequest(request: HttpRequest, response: HttpResponse, clientIp: string, isBlocked: bool)
      modifies this`requestLog
      ensures requestLog == old(requestLog) + [RequestEvent(request, response, clientIp, isBlocked)]
    {
      requestLog := requestLog + [RequestEvent(request, response, clientIp, isBlocked)];
    }
  }
}
