/** The rule-management and toggle endpoints of the Flask app
    (src/web_interface.py), with the HTTP shell stripped: a handler takes
    the manager, the route's arguments and the parsed JSON body, changes
    the manager and returns the reply. An exception that escapes a handler
    becomes Flask's 500 reply. */
module WebInterface {
  import opened Wrappers
  import opened Text
  import opened Ordering
  import opened RuleFile
  import opened JsonData
  import opened Monitor

  datatype HttpMethod = Get | Post(data: Json)

  /** The replies the two handlers produce. */
  datatype Reply =
    | RuleList(rules: seq<string>)       // 200, a JSON array of rules
    | Success                            // 200, {"success": true}
    | Enabled(enabled: bool)             // 200, {"success": true, "enabled": ...}
    | Failure(status: int, error: string) // {"success": false, "error": ...} with this status
    | ServerError                        // 500, an exception escaped the handler

  /** The `<rule_type>` of `/api/rules/<rule_type>`. */
  function KindOf(ruleType: string): Option<RuleKind>
  {
    if ruleType == "domains" then Some(Domains)
    else if ruleType == "keywords" then Some(Keywords)
    else None
  }

  /** `{r.strip().lower() for r in rules if r.strip()}`: the normal forms of
      the entries that are not blank. */
  function NormaliseRules(rules: seq<string>): set<string>
  {
    set r | r in rules && PyStrip(r) != [] :: Lower(PyStrip(r))
  }

  /** The entries of a JSON list when all of them are strings; `None` when
      one is not, where `r.strip()` raises `AttributeError`. */
  function StringEntries(items: seq<Json>): (r: Option<seq<string>>)
    ensures r.Some? <==> forall i :: 0 <= i < |items| ==> items[i].JString?
    ensures r.Some? ==> |r.value| == |items| && forall i :: 0 <= i < |items| ==> r.value[i] == items[i].str
  {
    if items == [] then Some([])
    else if !items[0].JString? then None
    else
      match StringEntries(items[1..])
      case None => None
      case Some(rest) => Some([items[0].str] + rest)
  }

  /** What a POST body makes `manage_rules` do. */
  datatype PostOutcome =
    | Replace(rules: seq<string>) // a list of strings: the set becomes their normal forms
    | ClearThenRaise              // a list with a non-string entry: the set is cleared, then the comprehension raises
    | BadFormat                   // no `rules` key, or its value is not a list
    | RaiseUnchanged              // the `in` test or the indexing raises before any change

  function ClassifyPost(data: Json): PostOutcome
  {
    match LookupKey(data, "rules")
    case Raises => RaiseUnchanged
    case Missing => BadFormat
    case Found(v) =>
      if !v.JArray? then BadFormat
      else
        match StringEntries(v.items)
        case None => ClearThenRaise
        case Some(rules) => Replace(rules)
  }

  /** `manage_rules(rule_type)`. An unknown rule type is answered with 404
      and nothing changes. GET answers the selected set as a sorted list
      and changes nothing. POST with a `rules` list of strings replaces the
      selected set by the normal forms of its non-blank entries, writes the
      set to the file of that rule type (a failure to open the file is
      ignored) and answers success; POST without a `rules` list answers 400
      and changes nothing. The other rule set is never touched. */
  method ManageRules(fm: NetworkFilterManager, ruleType: string, req: HttpMethod, openFails: bool)
    returns (reply: Reply)
    modifies fm`blockedDomains, fm`blockedKeywords, fm`files
    ensures KindOf(ruleType).None? ==> reply == Failure(404, "Invalid rule type") && unchanged(fm)
    ensures KindOf(ruleType).Some? && req.Get? ==>
              reply == RuleList(SortedElems(fm.Rules(KindOf(ruleType).value))) && unchanged(fm)
    ensures KindOf(ruleType).Some? && req.Post? ==>
              var kind := KindOf(ruleType).value;
              var outcome := ClassifyPost(req.data);
              && reply == (match outcome
                           case Replace(_) => Success
                           case BadFormat => Failure(400, "Invalid data format")
                           case _ => ServerError)
              && fm.Rules(kind) == (match outcome
                                    case Replace(rules) => NormaliseRules(rules)
                                    case ClearThenRaise => {}
                                    case _ => old(fm.Rules(kind)))
              && fm.Rules(kind.Other()) == old(fm.Rules(kind.Other()))
              && fm.files == if outcome.Replace? && !openFails
                             then old(fm.files)[kind.Path() := Serialise(fm.Rules(kind))]
                             else old(fm.files)
    ensures old(fm.RulesNormal()) ==> fm.RulesNormal()
  {
    var k := KindOf(ruleType);
    if k.None? {
      return Failure(404, "Invalid rule type");
    }
    var kind := k.value;
    var path := kind.Path();
    match req
    case Get =>
      reply := RuleList(SortedElems(fm.Rules(kind)));
    case Post(data) =>
      var lookup := LookupKey(data, "rules");
      if lookup.Raises? {
        reply := ServerError;
      } else if lookup.Missing? || !lookup.value.JArray? {
        reply := Failure(400, "Invalid data format");
      } else {
        fm.ClearRules(kind);
        var entries := StringEntries(lookup.value.items);
        if entries.None? {
          reply := ServerError;
        } else {
          fm.UpdateRules(kind, NormaliseRules(entries.value));
          forall r | r in NormaliseRules(entries.value)
            ensures NormalRule(r)
          {
            NormalisedRuleShape(entries.value, r);
          }
          var _ := fm.SaveRulesToFile(path, fm.Rules(kind), openFails);
          reply := Success;
        }
      }
  }

  /** `set_filtering_status`: a boolean `enabled` becomes the new toggle
      and is echoed back; anything else answers 400 (or 500 when the `in`
      test raises) and leaves the toggle as it was. */
  method SetFilteringStatus(fm: NetworkFilterManager, data: Json) returns (reply: Reply)
    modifies fm`filteringEnabled
    ensures match LookupKey(data, "enabled")
            case Found(JBool(b)) => fm.filteringEnabled == b && reply == Enabled(b)
            case Raises => fm.filteringEnabled == old(fm.filteringEnabled) && reply == ServerError
            case _ => fm.filteringEnabled == old(fm.filteringEnabled) && reply == Failure(400, "Invalid request")
  {
    var lookup := LookupKey(data, "enabled");
    if lookup.Raises? {
      reply := ServerError;
    } else if lookup.Found? && lookup.value.JBool? {
      fm.filteringEnabled := lookup.value.boolValue;
      reply := Enabled(fm.filteringEnabled);
    } else {
      reply := Failure(400, "Invalid request");
    }
  }

  /** Every rule the API stores is non-empty, stripped and lower-case. */
  lemma NormalisedRuleShape(rules: seq<string>, x: string)
    requires x in NormaliseRules(rules)
    ensures NormalRule(x)
  {
    var r :| r in rules && PyStrip(r) != [] && x == Lower(PyStrip(r));
    var t := PyStrip(r);
    TrimSpec(r, PyIsSpace);
    LowerCharFacts(t[0]);
    LowerCharFacts(t[|t| - 1]);
    forall i | 0 <= i < |x|
      ensures LowerChar(x[i]) == x[i]
    {
      LowerCharFacts(t[i]);
    }
  }

  /** A stored rule is its own normal form. */
  lemma NormalFormFixed(x: string)
    requires NormalRule(x)
    ensures PyStrip(x) == x && Lower(x) == x
  {
    TrimFixed(x, PyIsSpace);
  }

  /** Posting back the list a GET returned leaves the set as it is. */
  lemma RepostIsIdentity(rules: seq<string>)
    ensures NormaliseRules(SortedElems(NormaliseRules(rules))) == NormaliseRules(rules)
  {
    var s := NormaliseRules(rules);
    var listing := SortedElems(s);
    SortedElemsSpec(s);
    forall x | x in s
      ensures PyStrip(x) != [] && Lower(PyStrip(x)) == x
    {
      NormalisedRuleShape(rules, x);
      NormalFormFixed(x);
    }
    assert NormaliseRules(listing) == s;
  }

  /** Posted rules that are single lines and not comments survive a
      restart: the file written for them loads back as the same set. */
  lemma PostedRulesSurviveReload(rules: seq<string>)
    requires forall r :: r in rules ==> NoLineBreaks(r) && (PyStrip(r) == [] || PyStrip(r)[0] != '#')
    ensures LoadRules(Some(Serialise(NormaliseRules(rules)))) == NormaliseRules(rules)
  {
    forall x | x in NormaliseRules(rules)
      ensures WellFormedRule(x)
    {
      var r :| r in rules && PyStrip(r) != [] && x == Lower(PyStrip(r));
      NormaliseWellFormed(r);
    }
    SaveThenLoad(NormaliseRules(rules));
  }

  /** But the API also accepts a rule beginning with `#`: it is kept and
      enforced for the session, and written to the file, where the reader
      takes it for a comment, so it is gone after a restart. */
  lemma CommentRuleLostOnReload()
    ensures NormaliseRules(["#ads"]) == {"#ads"}
    ensures LoadRules(Some(Serialise({"#ads"}))) == {}
  {
    CommentRuleAccepted();
    CommentRuleFileLoadsNothing();
  }

  lemma CommentRuleAccepted()
    ensures NormaliseRules(["#ads"]) == {"#ads"}
  {
    NormalFormFixed("#ads");
  }

  lemma CommentRuleFileLoadsNothing()
    ensures LoadRules(Some(Serialise({"#ads"}))) == {}
  {
    var x := "#ads";
    assert Serialise({x}) == WriteItems([x]) by {
      assert StrictlySorted([x]);
      SortedElemsUnique([x], {x});
    }
    assert Lines(WriteItems([x])) == [x] by {
      assert AllSingleLine([x]);
      LinesOfWriteItems([x]);
    }
    assert !Kept(x) by {
      NormalFormFixed(x);
    }
    assert ParseLines([x]) == ParseLines([]) + RuleOf(x);
  }

  /** The JSON list a client sends for a sequence of rule strings. */
  function RulesArray(rules: seq<string>): (j: Json)
    ensures j.JArray? && StringEntries(j.items) == Some(rules)
  {
    var items := seq(|rules|, i requires 0 <= i < |rules| => JString(rules[i]));
    var r := StringEntries(items);
    assert r.value == rules;
    JArray(items)
  }

  /** POST then GET: the listing is the sorted, duplicate-free list of the
      posted rules' normal forms, and nothing else. */
  method PostThenGet(fm: NetworkFilterManager, ruleType: string, rules: seq<string>, openFails: bool)
    returns (listing: Reply)
    requires KindOf(ruleType).Some?
    modifies fm`blockedDomains, fm`blockedKeywords, fm`files
    ensures listing.RuleList?
    ensures StrictlySorted(listing.rules)
    ensures forall x :: x in listing.rules <==> x in NormaliseRules(rules)
  {
    var posted := ManageRules(fm, ruleType, Post(JObject(map["rules" := RulesArray(rules)])), openFails);
    listing := ManageRules(fm, ruleType, Get, openFails);
    SortedElemsSpec(NormaliseRules(rules));
  }

  /** Switching filtering from the settings page and then reading the
      status: the status reports the requested value, and a body whose
      `enabled` is not a boolean (here the string "false") changes nothing. */
  method ToggleThenStatus(fm: NetworkFilterManager, enabled: bool) returns (accepted: Reply, rejected: Reply, status: Status)
    modifies fm`filteringEnabled
    ensures accepted == Enabled(enabled)
    ensures rejected == Failure(400, "Invalid request")
    ensures status.filteringEnabled == enabled
    ensures status.blockedDomainsCount == |fm.blockedDomains| && status.blockedKeywordsCount == |fm.blockedKeywords|
  {
    accepted := SetFilteringStatus(fm, JObject(map["enabled" := JBool(enabled)]));
    rejected := SetFilteringStatus(fm, JObject(map["enabled" := JString("false")]));
    status := fm.GetStatus();
  }
}
