/** Chains of one-character replacements, the shape of both HTML escapes
    in the program (`url.replace("&", ...).replace("<", ...)...` on the
    server and `.replace(/&/g, ...)...` in the dashboard), and what such a
    chain does to each character. */
module Escaping {
  import opened Text

  /** A replacement step: every occurrence of `target` becomes `replacement`. */
  datatype Step = Step(target: char, replacement: string)

  /** The steps applied in order, each to the whole output of the previous
      one. */
  function ReplaceChain(s: string, steps: seq<Step>): string
    decreases |steps|
  {
    if steps == [] then s
    else ReplaceChain(ReplaceChar(s, steps[0].target, steps[0].replacement), steps[1..])
  }

  /** Applies `f` to every character and concatenates the results. */
  function FlatMap(s: string, f: char -> string): string
  {
    if s == [] then [] else f(s[0]) + FlatMap(s[1..], f)
  }

  /** A chain of replacements works piecewise. */
  lemma {:induction false} ReplaceChainAppend(a: string, b: string, steps: seq<Step>)
    ensures ReplaceChain(a + b, steps) == ReplaceChain(a, steps) + ReplaceChain(b, steps)
    decreases |steps|
  {
    if steps != [] {
      var st := steps[0];
      ReplaceCharAppend(a, b, st.target, st.replacement);
      ReplaceChainAppend(ReplaceChar(a, st.target, st.replacement), ReplaceChar(b, st.target, st.replacement), steps[1..]);
    }
  }

  /** So the chain is the character-by-character translation given by the
      chain's effect on single characters: later steps see the output of
      earlier ones only within the text one character produced. */
  lemma {:induction false} ReplaceChainPerChar(s: string, steps: seq<Step>, f: char -> string)
    requires forall c :: f(c) == ReplaceChain([c], steps)
    ensures ReplaceChain(s, steps) == FlatMap(s, f)
  {
    if s == [] {
      ReplaceChainEmpty(steps);
    } else {
      assert s == [s[0]] + s[1..];
      ReplaceChainAppend([s[0]], s[1..], steps);
      ReplaceChainPerChar(s[1..], steps, f);
    }
  }

  lemma {:induction false} ReplaceChainEmpty(steps: seq<Step>)
    ensures ReplaceChain([], steps) == []
    decreases |steps|
  {
    if steps != [] {
      ReplaceChainEmpty(steps[1..]);
    }
  }

  /** A character that no step targets passes through the chain unchanged. */
  lemma {:induction false} ReplaceChainUntouched(s: string, steps: seq<Step>)
    requires forall k :: 0 <= k < |steps| ==> steps[k].target !in s
    ensures ReplaceChain(s, steps) == s
    decreases |steps|
  {
    if steps != [] {
      ReplaceCharAbsent(s, steps[0].target, steps[0].replacement);
      ReplaceChainUntouched(s, steps[1..]);
    }
  }

  /** A character is turned into the replacement of the first step that
      targets it, provided no later step targets a character of that
      replacement. */
  lemma {:induction false} ReplaceChainSingle(c: char, steps: seq<Step>, k: nat)
    requires k < |steps| && steps[k].target == c
    requires forall j :: 0 <= j < k ==> steps[j].target != c
    requires forall j :: k < j < |steps| ==> steps[j].target !in steps[k].replacement
    ensures ReplaceChain([c], steps) == steps[k].replacement
    decreases k
  {
    ReplaceCharSingle(c, steps[0].target, steps[0].replacement);
    if k == 0 {
      ReplaceChainUntouched(steps[0].replacement, steps[1..]);
    } else {
      ReplaceChainSingle(c, steps[1..], k - 1);
    }
  }

  /** A character that `f` never produces is absent from the translation. */
  lemma {:induction false} FlatMapAvoids(s: string, f: char -> string, c: char)
    requires forall x :: c !in f(x)
    ensures c !in FlatMap(s, f)
  {
    if s != [] {
      FlatMapAvoids(s[1..], f, c);
    }
  }

  /** `t` starts with one of the listed entities. */
  predicate StartsWithEntity(t: string, entities: seq<string>)
  {
    exists k :: 0 <= k < |entities| && entities[k] <= t
  }

  /** Every `&` in `t` is the first character of an entity. */
  predicate AmpersandsBeginEntities(t: string, entities: seq<string>)
  {
    forall i :: 0 <= i < |t| && t[i] == '&' ==> StartsWithEntity(t[i..], entities)
  }

  /** An entity: an `&` followed by characters none of which is `&`. */
  predicate IsEntity(e: string)
  {
    |e| > 0 && e[0] == '&' && forall i :: 1 <= i < |e| ==> e[i] != '&'
  }

  /** When each character becomes either itself (and is not `&`) or one of
      the entities, every `&` of the output begins an entity: no `&` is left
      bare and none is escaped twice. */
  lemma {:induction false} FlatMapEntities(s: string, f: char -> string, entities: seq<string>)
    requires forall k :: 0 <= k < |entities| ==> IsEntity(entities[k])
    requires forall c :: (f(c) == [c] && c != '&') || f(c) in entities
    ensures AmpersandsBeginEntities(FlatMap(s, f), entities)
  {
    if s != [] {
      var head := f(s[0]);
      var rest := FlatMap(s[1..], f);
      var t := head + rest;
      FlatMapEntities(s[1..], f, entities);
      forall i | 0 <= i < |t| && t[i] == '&'
        ensures StartsWithEntity(t[i..], entities)
      {
        if i < |head| {
          assert head[i] == '&';
          var k :| 0 <= k < |entities| && entities[k] == head;
          assert i == 0;
          assert entities[k] <= t[i..];
        } else {
          assert t[i..] == rest[i - |head|..];
          assert rest[i - |head|] == '&';
        }
      }
    }
  }
}
