/** The string logic of the dashboard script (static/js/dashboard.js):
    `escapeHtml`, the textarea join of `loadRules` and split of
    `saveRules`, and the `??` defaults of `updateDashboard`. */
module Dashboard {
  import opened Wrappers
  import opened Text
  import opened Escaping
  import opened JsonData
  import opened Stats
  import opened WebInterface

  /** The five `replace` calls of `escapeHtml`, in order. */
  const HtmlSteps := [Step('&', "&amp;"), Step('<', "&lt;"), Step('>', "&gt;"), Step('"', "&quot;"), Step('\'', "&#039;")]

  /** The entities `escapeHtml` produces. */
  const HtmlEntities := ["&amp;", "&lt;", "&gt;", "&quot;", "&#039;"]

  /** `escapeHtml(unsafe)`. */
  function EscapeHtml(unsafe: string): string
  {
    ReplaceChain(unsafe, HtmlSteps)
  }

  /** What `escapeHtml` does to one character. */
  function EscapeHtmlChar(c: char): string
  {
    if c == '&' then "&amp;"
    else if c == '<' then "&lt;"
    else if c == '>' then "&gt;"
    else if c == '"' then "&quot;"
    else if c == '\'' then "&#039;"
    else [c]
  }

  /** Decoding the five entities. */
  function UnescapeHtml(t: string): string
    decreases |t|
  {
    if t == [] then []
    else if "&amp;" <= t then "&" + UnescapeHtml(t[5..])
    else if "&lt;" <= t then "<" + UnescapeHtml(t[4..])
    else if "&gt;" <= t then ">" + UnescapeHtml(t[4..])
    else if "&quot;" <= t then "\"" + UnescapeHtml(t[6..])
    else if "&#039;" <= t then "'" + UnescapeHtml(t[6..])
    else [t[0]] + UnescapeHtml(t[1..])
  }

  lemma EscapeHtmlCharIsChain(c: char)
    ensures EscapeHtmlChar(c) == ReplaceChain([c], HtmlSteps)
  {
    if c == '&' {
      ReplaceChainSingle(c, HtmlSteps, 0);
    } else if c == '<' {
      ReplaceChainSingle(c, HtmlSteps, 1);
    } else if c == '>' {
      ReplaceChainSingle(c, HtmlSteps, 2);
    } else if c == '"' {
      ReplaceChainSingle(c, HtmlSteps, 3);
    } else if c == '\'' {
      ReplaceChainSingle(c, HtmlSteps, 4);
    } else {
      ReplaceChainUntouched([c], HtmlSteps);
    }
  }

  /** `escapeHtml` is the character-by-character translation
      `EscapeHtmlChar`. */
  lemma EscapeHtmlIsPerChar(s: string)
    ensures EscapeHtml(s) == FlatMap(s, EscapeHtmlChar)
  {
    forall c | true
      ensures EscapeHtmlChar(c) == ReplaceChain([c], HtmlSteps)
    {
      EscapeHtmlCharIsChain(c);
    }
    ReplaceChainPerChar(s, HtmlSteps, EscapeHtmlChar);
  }

  /** Each character becomes itself (when it is not `&`) or one entity,
      and never a markup character. */
  lemma EscapeHtmlCharShape(c: char)
    ensures (EscapeHtmlChar(c) == [c] && c != '&') || EscapeHtmlChar(c) in HtmlEntities
    ensures '<' !in EscapeHtmlChar(c) && '>' !in EscapeHtmlChar(c)
    ensures '"' !in EscapeHtmlChar(c) && '\'' !in EscapeHtmlChar(c)
  {
  }

  lemma HtmlEntitiesAreEntities()
    ensures forall k :: 0 <= k < |HtmlEntities| ==> IsEntity(HtmlEntities[k])
  {
    assert IsEntity(HtmlEntities[0]) && IsEntity(HtmlEntities[1]) && IsEntity(HtmlEntities[2]);
    assert IsEntity(HtmlEntities[3]) && IsEntity(HtmlEntities[4]);
  }

  lemma {:induction false} UnescapeEscapedHtml(s: string)
    ensures UnescapeHtml(FlatMap(s, EscapeHtmlChar)) == s
  {
    if s != [] {
      var c := s[0];
      var rest := FlatMap(s[1..], EscapeHtmlChar);
      var t := EscapeHtmlChar(c) + rest;
      UnescapeEscapedHtml(s[1..]);
      if c == '&' {
        assert "&amp;" <= t && t[5..] == rest;
      } else if c == '<' {
        assert t[1] == 'l';
        assert "&lt;" <= t && t[4..] == rest;
      } else if c == '>' {
        assert t[1] == 'g';
        assert "&gt;" <= t && t[4..] == rest;
      } else if c == '"' {
        assert t[1] == 'q';
        assert "&quot;" <= t && t[6..] == rest;
      } else if c == '\'' {
        assert t[1] == '#';
        assert "&#039;" <= t && t[6..] == rest;
      } else {
        assert t[0] == c && t[1..] == rest;
      }
      assert s == [c] + s[1..];
    }
  }

  /** The output of `escapeHtml` holds none of `<`, `>`, `"` and `'`;
      because `&` is replaced first, every `&` in it begins one of the five
      entities and none is escaped twice, so decoding the entities gives
      back the input. */
  lemma EscapeHtmlSafe(s: string)
    ensures '<' !in EscapeHtml(s) && '>' !in EscapeHtml(s)
    ensures '"' !in EscapeHtml(s) && '\'' !in EscapeHtml(s)
    ensures AmpersandsBeginEntities(EscapeHtml(s), HtmlEntities)
    ensures UnescapeHtml(EscapeHtml(s)) == s
  {
    EscapeHtmlIsPerChar(s);
    forall c | true
      ensures (EscapeHtmlChar(c) == [c] && c != '&') || EscapeHtmlChar(c) in HtmlEntities
      ensures '<' !in EscapeHtmlChar(c) && '>' !in EscapeHtmlChar(c)
      ensures '"' !in EscapeHtmlChar(c) && '\'' !in EscapeHtmlChar(c)
    {
      EscapeHtmlCharShape(c);
    }
    FlatMapAvoids(s, EscapeHtmlChar, '<');
    FlatMapAvoids(s, EscapeHtmlChar, '>');
    FlatMapAvoids(s, EscapeHtmlChar, '"');
    FlatMapAvoids(s, EscapeHtmlChar, '\'');
    HtmlEntitiesAreEntities();
    FlatMapEntities(s, EscapeHtmlChar, HtmlEntities);
    UnescapeEscapedHtml(s);
  }

  /** The growth `escapeHtml` causes: four characters per `&`, three per
      `<` or `>`, five per `"` or `'`. */
  function Growth(s: string): nat
  {
    4 * Count(s, '&') + 3 * Count(s, '<') + 3 * Count(s, '>') + 5 * Count(s, '"') + 5 * Count(s, '\'')
  }

  lemma {:induction false} PerCharLength(s: string)
    ensures |FlatMap(s, EscapeHtmlChar)| == |s| + Growth(s)
  {
    if s != [] {
      PerCharLength(s[1..]);
    }
  }

  /** The length of the escaped text. */
  lemma EscapeHtmlLength(s: string)
    ensures |EscapeHtml(s)| == |s| + Growth(s)
  {
    EscapeHtmlIsPerChar(s);
    PerCharLength(s);
  }

  /** Text without any of the five special characters is returned as it
      is. */
  lemma EscapeHtmlPlain(s: string)
    requires '&' !in s && '<' !in s && '>' !in s && '"' !in s && '\'' !in s
    ensures EscapeHtml(s) == s
  {
    ReplaceChainUntouched(s, HtmlSteps);
  }

  /** `s.split('\n')`: the pieces between newlines, always at least one. */
  function SplitLines(s: string): (r: seq<string>)
    ensures |r| >= 1
  {
    if s == [] then [""]
    else
      var rest := SplitLines(s[1..]);
      if s[0] == '\n' then [""] + rest else [[s[0]] + rest[0]] + rest[1..]
  }

  /** `parts.join('\n')`. */
  function JoinLines(parts: seq<string>): string
  {
    if parts == [] then ""
    else if |parts| == 1 then parts[0]
    else parts[0] + "\n" + JoinLines(parts[1..])
  }

  /** Joining the pieces of a split gives back the text. */
  lemma {:induction false} JoinSplit(s: string)
    ensures JoinLines(SplitLines(s)) == s
  {
    if s != [] {
      var rest := SplitLines(s[1..]);
      JoinSplit(s[1..]);
      if s[0] == '\n' {
        assert SplitLines(s) == [""] + rest;
        assert ([""] + rest)[1..] == rest;
      } else {
        var parts := [[s[0]] + rest[0]] + rest[1..];
        assert SplitLines(s) == parts;
        if |rest| > 1 {
          assert parts[1..] == rest[1..];
          assert JoinLines(parts) == [s[0]] + (rest[0] + "\n" + JoinLines(rest[1..]));
        } else {
          assert JoinLines(parts) == [s[0]] + rest[0];
        }
        assert s == [s[0]] + s[1..];
      }
    }
  }

  lemma {:induction false} SplitLine(x: string)
    requires '\n' !in x
    ensures SplitLines(x) == [x]
  {
    if x != [] {
      SplitLine(x[1..]);
      assert x == [x[0]] + x[1..];
    }
  }

  lemma {:induction false} SplitBeforeNewline(x: string, y: string)
    requires '\n' !in x
    ensures SplitLines(x + "\n" + y) == [x] + SplitLines(y)
  {
    if x == [] {
      assert x + "\n" + y == "\n" + y;
      assert ("\n" + y)[1..] == y;
    } else {
      assert (x + "\n" + y)[1..] == x[1..] + "\n" + y;
      SplitBeforeNewline(x[1..], y);
      assert x == [x[0]] + x[1..];
    }
  }

  /** Splitting a join of newline-free pieces gives back the pieces. */
  lemma {:induction false} SplitJoin(parts: seq<string>)
    requires parts != []
    requires forall k :: 0 <= k < |parts| ==> '\n' !in parts[k]
    ensures SplitLines(JoinLines(parts)) == parts
  {
    if |parts| == 1 {
      SplitLine(parts[0]);
    } else {
      SplitBeforeNewline(parts[0], JoinLines(parts[1..]));
      SplitJoin(parts[1..]);
    }
  }

  /** `r.trim() === ''`. */
  predicate IsBlank(r: string)
  {
    Trim(r, JsIsSpace) == []
  }

  /** `.filter(r => r.trim() !== '')`: the non-blank pieces, in order and
      as they were (not trimmed). */
  function KeepNonBlank(parts: seq<string>): (r: seq<string>)
    ensures |r| <= |parts|
    ensures forall k :: 0 <= k < |r| ==> !IsBlank(r[k])
  {
    if parts == [] then []
    else (if IsBlank(parts[0]) then [] else [parts[0]]) + KeepNonBlank(parts[1..])
  }

  /** A piece is blank exactly when it is all whitespace to `trim()`. */
  lemma BlankIsAllSpace(r: string)
    ensures IsBlank(r) <==> AllSpace(r, JsIsSpace)
  {
    TrimSpec(r, JsIsSpace);
  }

  /** Filtering keeps exactly the non-blank pieces. */
  lemma {:induction false} KeepNonBlankMembers(parts: seq<string>)
    ensures forall x :: x in KeepNonBlank(parts) <==> x in parts && !IsBlank(x)
  {
    if parts != [] {
      KeepNonBlankMembers(parts[1..]);
      assert parts == [parts[0]] + parts[1..];
    }
  }

  /** Filtering works piecewise: the pieces kept from `a + b` are those
      kept from `a` followed by those kept from `b`, so the kept pieces
      stay in their order, repeats included. */
  lemma {:induction false} KeepNonBlankAppend(a: seq<string>, b: seq<string>)
    ensures KeepNonBlank(a + b) == KeepNonBlank(a) + KeepNonBlank(b)
  {
    if a == [] {
      assert a + b == b;
    } else {
      assert (a + b)[1..] == a[1..] + b;
      KeepNonBlankAppend(a[1..], b);
    }
  }

  /** One piece is kept exactly when it is not blank, and as it is. */
  lemma KeepNonBlankOne(x: string)
    ensures KeepNonBlank([x]) == if IsBlank(x) then [] else [x]
  {
    assert [x][1..] == [];
  }

  /** Filtering pieces none of which is blank keeps them all. */
  lemma {:induction false} KeepAllNonBlank(parts: seq<string>)
    requires forall k :: 0 <= k < |parts| ==> !IsBlank(parts[k])
    ensures KeepNonBlank(parts) == parts
  {
    if parts != [] {
      KeepAllNonBlank(parts[1..]);
    }
  }

  /** The rules `saveRules` posts for a textarea's value. */
  function RulesFromTextarea(value: string): seq<string>
  {
    KeepNonBlank(SplitLines(value))
  }

  /** The textarea value `loadRules` shows for a rule listing. */
  function TextareaFromRules(rules: seq<string>): string
  {
    JoinLines(rules)
  }

  /** Every rule `saveRules` sends is one line of the textarea, and not
      blank. */
  lemma {:induction false} SplitPiecesAreLines(s: string)
    ensures forall k :: 0 <= k < |SplitLines(s)| ==> '\n' !in SplitLines(s)[k]
  {
    if s != [] {
      SplitPiecesAreLines(s[1..]);
    }
  }

  lemma SavedRulesAreLines(value: string)
    ensures forall x :: x in RulesFromTextarea(value) ==> '\n' !in x && !AllSpace(x, JsIsSpace)
  {
    SplitPiecesAreLines(value);
    KeepNonBlankMembers(SplitLines(value));
    forall x | x in RulesFromTextarea(value)
      ensures '\n' !in x && !AllSpace(x, JsIsSpace)
    {
      BlankIsAllSpace(x);
    }
  }

  /** Round trip: showing a listing in the textarea and saving it unedited
      sends the same list, provided no rule holds a line break or is blank.
      A carriage return is excluded too: a textarea's value turns it into a
      newline, which the model of the textarea does not capture. */
  lemma TextareaRoundTrip(rules: seq<string>)
    requires forall k :: 0 <= k < |rules| ==> '\n' !in rules[k] && '\r' !in rules[k] && !IsBlank(rules[k])
    ensures RulesFromTextarea(TextareaFromRules(rules)) == rules
  {
    if rules == [] {
      assert SplitLines("") == [""];
      assert IsBlank("");
    } else {
      SplitJoin(rules);
      KeepAllNonBlank(rules);
    }
  }

  /** The server strips with Python's whitespace, the editor with
      JavaScript's, and they differ: a rule made of a zero-width no-break
      space is stored by the server but dropped by the editor the next time
      the rules are saved unedited. */
  lemma ZeroWidthRuleDroppedByEditor()
    ensures NormaliseRules(["\U{FEFF}"]) == {"\U{FEFF}"}
    ensures RulesFromTextarea(TextareaFromRules(["\U{FEFF}"])) == []
  {
    var x := "\U{FEFF}";
    NormalFormFixed(x);
    assert NormaliseRules([x]) == {x};
    SplitLine(x);
    assert IsBlank(x);
  }

  /** `data.<key> ?? 'N/A'`: the field, or 'N/A' when it is missing or
      null. */
  function Shown(data: map<string, Json>, key: string): Json
  {
    if key in data && !data[key].JNull? then data[key] else JString("N/A")
  }

  /** A block row as `jsonify` sends it. */
  function BlockRowJson(row: BlockRow): Json
  {
    JObject(map["timestamp" := JNumber(row.timestamp as real), "client_ip" := JString(row.clientIp),
                "url" := JString(row.url), "reason" := JString(row.reason)])
  }

  /** The statistics dictionary as the dashboard receives it; `{}` when
      the statistics are unavailable. */
  function StatsJson(stats: Option<DashboardStats>): map<string, Json>
  {
    match stats
    case None => map[]
    case Some(s) =>
      map["total_requests" := JNumber(s.totalRequests as real),
          "blocked_requests" := JNumber(s.blockedRequests as real),
          "total_traffic_mb" := JNumber(s.totalTrafficBytes as real / (1024.0 * 1024.0)),
          "recent_blocked" := JArray(seq(|s.recentBlocked|, i requires 0 <= i < |s.recentBlocked| => BlockRowJson(s.recentBlocked[i])))]
  }

  /** `updateDashboard` on the statistics reply: 'N/A' in all three figures
      when the statistics are unavailable, and otherwise the two counts and
      the traffic of the last 24 hours. */
  lemma DashboardFigures(db: Option<Database>, now: int, queryFails: bool)
    ensures var data := StatsJson(GetDashboardStats(db, now, queryFails));
            if db.None? || queryFails then
              && Shown(data, "total_requests") == JString("N/A")
              && Shown(data, "blocked_requests") == JString("N/A")
              && Shown(data, "total_traffic_mb") == JString("N/A")
            else
              && Shown(data, "total_requests") == JNumber(|Since(db.value.requests, RequestTime, now - Day)| as real)
              && Shown(data, "blocked_requests") == JNumber(|Since(db.value.blocked, BlockTime, now - Day)| as real)
              && Shown(data, "total_traffic_mb")
                 == JNumber(Traffic(Since(db.value.requests, RequestTime, now - Day)) as real / (1024.0 * 1024.0))
  {
  }
}
