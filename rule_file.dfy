/** The rule-file format of `NetworkFilterManager` (src/monitor.py): a
    line-oriented text file, one rule per line, `#` comments and blank
    lines ignored on reading, the rules written back sorted with a `\n`
    after each. */
module RuleFile {
  import opened Wrappers
  import opened Text
  import opened Ordering

  /** The line terminators Python's text mode recognises on reading
      (universal newlines: `\n`, `\r` and `\r\n`). */
  predicate IsLineBreak(c: char)
  {
    c == '\n' || c == '\r'
  }

  predicate NoLineBreaks(s: string)
  {
    forall i :: 0 <= i < |s| ==> !IsLineBreak(s[i])
  }

  /** The index of the first line terminator, or `|s|` when there is none. */
  function BreakIndex(s: string): (i: nat)
    ensures i <= |s|
    ensures NoLineBreaks(s[..i])
    ensures i < |s| ==> IsLineBreak(s[i])
  {
    if s == [] || IsLineBreak(s[0]) then 0 else 1 + BreakIndex(s[1..])
  }

  /** `for line in f`, each line without its terminator. A `\r\n` pair
      yields one extra empty piece, which is blank and so contributes no
      rule: the rules read are the same as Python's. */
  function Lines(text: string): seq<string>
    decreases |text|
  {
    if text == [] then []
    else
      var i := BreakIndex(text);
      if i == |text| then [text] else [text[..i]] + Lines(text[i + 1..])
  }

  /** A non-empty text without a terminator is one line, read even though
      it does not end in a line break. */
  lemma LinesSingle(x: string)
    requires x != [] && NoLineBreaks(x)
    ensures Lines(x) == [x]
  {
    assert BreakIndex(x) == |x| by {
      BreakIndexNone(x);
    }
  }

  lemma {:induction false} BreakIndexNone(x: string)
    requires NoLineBreaks(x)
    ensures BreakIndex(x) == |x|
    decreases |x|
  {
    if x != [] {
      BreakIndexNone(x[1..]);
    }
  }

  /** A line followed by a terminator and more text is the first line, and
      the lines of the rest follow it. */
  lemma LinesBeforeBreak(x: string, b: char, y: string)
    requires NoLineBreaks(x) && IsLineBreak(b) && y != []
    ensures Lines(x + [b] + y) == [x] + Lines(y)
  {
    var text := x + [b] + y;
    BreakIndexAt(x, b, y);
    assert text[..|x|] == x && text[|x| + 1..] == y;
  }

  lemma {:induction false} BreakIndexAt(x: string, b: char, y: string)
    requires NoLineBreaks(x) && IsLineBreak(b)
    ensures BreakIndex(x + [b] + y) == |x|
    decreases |x|
  {
    if x != [] {
      assert (x + [b] + y)[1..] == x[1..] + [b] + y;
      BreakIndexAt(x[1..], b, y);
    }
  }

  /** No line that `Lines` yields holds a terminator. */
  predicate AllSingleLine(lines: seq<string>)
  {
    forall k :: 0 <= k < |lines| ==> NoLineBreaks(lines[k])
  }

  lemma {:induction false} LinesAreSingle(text: string)
    ensures AllSingleLine(Lines(text))
    decreases |text|
  {
    if text != [] {
      var i := BreakIndex(text);
      if i < |text| {
        LinesAreSingle(text[i + 1..]);
      }
    }
  }

  /** The condition of line 49: after `strip()` the line is not empty and
      does not start with `#`. */
  predicate Kept(line: string)
  {
    var t := PyStrip(line);
    t != [] && t[0] != '#'
  }

  /** The rule a kept line contributes: `line.strip().lower()`. */
  function Normalise(line: string): string
  {
    Lower(PyStrip(line))
  }

  /** A rule in normal form, the form every rule the filter consults has:
      non-empty, already stripped and lower-cased. */
  predicate NormalRule(r: string)
  {
    && r != []
    && !PyIsSpace(r[0]) && !PyIsSpace(r[|r| - 1])
    && (forall i :: 0 <= i < |r| ==> LowerChar(r[i]) == r[i])
  }

  /** A rule as the reader produces it and as the writer can reproduce it:
      in normal form, on one line and not a comment. */
  predicate WellFormedRule(r: string)
  {
    NormalRule(r) && r[0] != '#' && NoLineBreaks(r)
  }

  /** A well-formed rule is its own normal form, and is kept. */
  lemma WellFormedIsNormal(r: string)
    requires WellFormedRule(r)
    ensures Kept(r) && Normalise(r) == r
  {
    TrimFixed(r, PyIsSpace);
  }

  /** The normal form of a single-line string is well formed. */
  lemma NormaliseWellFormed(line: string)
    requires Kept(line) && NoLineBreaks(line)
    ensures WellFormedRule(Normalise(line))
  {
    var t := PyStrip(line);
    var u := Lower(t);
    TrimSpec(line, PyIsSpace);
    var k := |line| - |TrimStart(line, PyIsSpace)|;
    LowerCharFacts(t[0]);
    LowerCharFacts(t[|t| - 1]);
    forall i | 0 <= i < |u|
      ensures LowerChar(u[i]) == u[i] && !IsLineBreak(u[i])
    {
      LowerCharFacts(t[i]);
      assert t[i] == line[k + i];
    }
  }

  /** What one line contributes: its normal form when it is kept, nothing
      otherwise. */
  function RuleOf(line: string): set<string>
  {
    if Kept(line) then {Normalise(line)} else {}
  }

  /** The set the loop of `_load_rules_from_file` builds from the lines
      read so far. */
  function ParseLines(lines: seq<string>): set<string>
    decreases |lines|
  {
    if lines == [] then {}
    else ParseLines(lines[..|lines| - 1]) + RuleOf(lines[|lines| - 1])
  }

  /** Duplicates collapse because the rules form a set: there are never
      more rules than lines. */
  lemma {:induction false} ParseLinesBound(lines: seq<string>)
    ensures |ParseLines(lines)| <= |lines|
    decreases |lines|
  {
    if lines != [] {
      ParseLinesBound(lines[..|lines| - 1]);
    }
  }

  /** Reading one more line adds what that line contributes. */
  lemma ParseLinesStep(lines: seq<string>, i: nat)
    requires i < |lines|
    ensures ParseLines(lines[..i + 1]) == ParseLines(lines[..i]) + RuleOf(lines[i])
  {
    assert lines[..i + 1][..i] == lines[..i];
  }

  /** Rules parsed from single lines are well formed. */
  lemma ParseLinesWellFormed(lines: seq<string>, x: string)
    requires AllSingleLine(lines)
    requires x in ParseLines(lines)
    ensures WellFormedRule(x)
  {
    var k := ParseLinesSource(lines, x);
    NormaliseWellFormed(lines[k]);
  }

  /** Every line's contribution ends up among the rules. */
  lemma {:induction false} ParseLinesHas(lines: seq<string>, k: nat)
    requires k < |lines|
    ensures RuleOf(lines[k]) <= ParseLines(lines)
    decreases |lines|
  {
    var n := |lines| - 1;
    if k < n {
      var init := lines[..n];
      ParseLinesHas(init, k);
      assert init[k] == lines[k];
    }
  }

  /** Every rule comes from some line: the returned index. */
  lemma {:induction false} ParseLinesSource(lines: seq<string>, x: string) returns (k: nat)
    requires x in ParseLines(lines)
    ensures k < |lines| && x in RuleOf(lines[k])
    decreases |lines|
  {
    var n := |lines| - 1;
    if x in RuleOf(lines[n]) {
      k := n;
    } else {
      var init := lines[..n];
      k := ParseLinesSource(init, x);
      assert init[k] == lines[k];
    }
  }

  /** `_load_rules_from_file` on the file's contents, `None` when the file
      does not exist: the target set is cleared and then receives the
      normal form of every kept line. */
  function LoadRules(content: Option<string>): set<string>
  {
    match content
    case None => {}
    case Some(text) => ParseLines(Lines(text))
  }

  /** Every rule loaded from a file is well formed, so the writer can
      reproduce it; a missing file loads no rules. */
  lemma LoadRulesWellFormed(content: Option<string>)
    ensures content.None? ==> LoadRules(content) == {}
    ensures forall r :: r in LoadRules(content) ==> WellFormedRule(r)
  {
    if content.Some? {
      LinesAreSingle(content.value);
      forall r | r in LoadRules(content)
        ensures WellFormedRule(r)
      {
        ParseLinesWellFormed(Lines(content.value), r);
      }
    }
  }

  /** What lines 57-58 write for the items in the given order: each item
      followed by one `\n`. */
  function WriteItems(items: seq<string>): string
  {
    if items == [] then "" else items[0] + "\n" + WriteItems(items[1..])
  }

  /** Appending one more item writes it after the text written so far. */
  lemma {:induction false} WriteItemsSnoc(items: seq<string>, x: string)
    ensures WriteItems(items + [x]) == WriteItems(items) + x + "\n"
    decreases |items|
  {
    if items == [] {
      assert [x][1..] == [];
    } else {
      assert (items + [x])[1..] == items[1..] + [x];
      WriteItemsSnoc(items[1..], x);
    }
  }

  /** The file `save_rules_to_file` writes: the rules in sorted order. */
  function Serialise(rules: set<string>): string
  {
    WriteItems(SortedElems(rules))
  }

  /** Reading back what was written gives back the items, one per line. */
  lemma {:induction false} LinesOfWriteItems(items: seq<string>)
    requires AllSingleLine(items)
    ensures Lines(WriteItems(items)) == items
    decreases |items|
  {
    if items != [] {
      var x := items[0];
      var rest := WriteItems(items[1..]);
      var text := x + "\n" + rest;
      assert text == WriteItems(items);
      assert BreakIndex(text) == |x| by {
        BreakIndexOfLine(x, rest);
      }
      assert text[..|x|] == x && text[|x| + 1..] == rest;
      LinesOfWriteItems(items[1..]);
    }
  }

  lemma {:induction false} BreakIndexOfLine(x: string, rest: string)
    requires NoLineBreaks(x)
    ensures BreakIndex(x + "\n" + rest) == |x|
    decreases |x|
  {
    if x != [] {
      assert (x + "\n" + rest)[1..] == x[1..] + "\n" + rest;
      BreakIndexOfLine(x[1..], rest);
    }
  }

  /** Round trip: saving a set of well-formed rules and loading the file
      gives back the same set. */
  lemma SaveThenLoad(rules: set<string>)
    requires forall r :: r in rules ==> WellFormedRule(r)
    ensures LoadRules(Some(Serialise(rules))) == rules
  {
    var items := SortedElems(rules);
    SortedElemsSpec(rules);
    assert AllSingleLine(items) by {
      forall k | 0 <= k < |items|
        ensures NoLineBreaks(items[k])
      {
        assert items[k] in rules;
      }
    }
    LinesOfWriteItems(items);
    ParseNormalItems(items, rules);
  }

  /** Parsing a listing of well-formed rules gives back exactly those rules. */
  lemma ParseNormalItems(items: seq<string>, rules: set<string>)
    requires forall x :: x in items <==> x in rules
    requires forall r :: r in rules ==> WellFormedRule(r)
    ensures ParseLines(items) == rules
  {
    forall x | x in rules
      ensures x in ParseLines(items)
    {
      var k :| 0 <= k < |items| && items[k] == x;
      WellFormedIsNormal(x);
      ParseLinesHas(items, k);
    }
    forall x | x in ParseLines(items)
      ensures x in rules
    {
      var k := ParseLinesSource(items, x);
      WellFormedIsNormal(items[k]);
    }
  }

  /** Loading a file, saving what was loaded and loading again gives the
      same rules as the first load. */
  lemma LoadSaveLoad(content: Option<string>)
    ensures LoadRules(Some(Serialise(LoadRules(content)))) == LoadRules(content)
  {
    LoadRulesWellFormed(content);
    SaveThenLoad(LoadRules(content));
  }
}
