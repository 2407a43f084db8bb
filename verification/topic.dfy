/**
 * Topic-filter matching of the MQTT client (`MqttClient::TopicMatchesSubscription`).
 *
 * The source walks two `std::string_view`s, the filter and the topic, and shrinks
 * them with `remove_prefix`. `remove_prefix(n)` requires `n <= size()`, and two of
 * the calls break that rule on ordinary inputs ("a/+" against "a/b", "a/b" against
 * "a"). `MatchesClamped` is the matcher with every removal clamped to the length of
 * the view: it is the reading the rest of the model uses. `Overruns` says whether a
 * run of the source breaks the precondition somewhere. `Matches` is an independent
 * reference: level-by-level matching as section 4.7 of OASIS MQTT Version 3.1.1
 * describes it.
 */
module Topic {

  // ---------------------------------------------------------------------------
  // string_view helpers
  // ---------------------------------------------------------------------------

  /** `s.find('/')`, with `npos` read as `|s|` (as `substr(0, npos)` does). */
  function SlashIndex(s: string): (i: nat)
    ensures i <= |s|
    ensures i < |s| ==> s[i] == '/'
  {
    if |s| == 0 then 0 else if s[0] == '/' then 0 else 1 + SlashIndex(s[1..])
  }

  /** No '/' comes before the one `SlashIndex` finds. */
  lemma {:induction false} NoSlashBefore(s: string)
    ensures forall k :: 0 <= k < SlashIndex(s) ==> s[k] != '/'
    decreases |s|
  {
    if |s| > 0 && s[0] != '/' {
      NoSlashBefore(s[1..]);
      assert forall k :: 1 <= k < SlashIndex(s) ==> s[k] == s[1..][k - 1];
    }
  }

  /** `s.substr(0, s.find('/'))`: the first level of `s`. */
  function FirstLevel(s: string): string
  {
    s[..SlashIndex(s)]
  }

  /** `s.remove_prefix(n)` with `n` clamped to `s.size()`. */
  function Drop(s: string, n: nat): string
  {
    if n <= |s| then s[n..] else []
  }

  function Min(a: int, b: int): int
  {
    if a <= b then a else b
  }

  // ---------------------------------------------------------------------------
  // The source's matcher, on the clamped reading
  // ---------------------------------------------------------------------------

  /** What `TopicMatchesSubscription` returns for `filter` and `topic` when every
    * `remove_prefix` is clamped to the length of its view. */
  function MatchesClamped(filter: string, topic: string): (r: bool)
    ensures r ==> (|topic| == 0 <==> |filter| == 0)
    decreases |topic|
  {
    if |topic| == 0 then |filter| == 0
    else if |filter| == 0 then false
    else
      var tp := FirstLevel(topic);
      if filter[0] == '+' then
        MatchesClamped(Drop(filter, 2), Drop(topic, |tp| + 1))
      else if filter[0] == '#' then
        true
      else
        var fp := FirstLevel(filter);
        if tp != fp then false
        else if |tp| == |topic| && |fp| == |filter| then true
        else MatchesClamped(Drop(filter, |fp| + 1), Drop(topic, |tp| + 1))
  }

  /** True when some `remove_prefix` in the source's run on `filter` and `topic` is
    * asked to remove more characters than its view holds (undefined behaviour). */
  function Overruns(filter: string, topic: string): (r: bool)
    ensures r ==> |topic| > 0 && |filter| > 0 && filter[0] != '#'
    decreases |topic|
  {
    if |topic| == 0 || |filter| == 0 then false
    else
      var tp := FirstLevel(topic);
      if filter[0] == '+' then
        |tp| + 1 > |topic| || 2 > |filter| ||
        Overruns(Drop(filter, 2), Drop(topic, |tp| + 1))
      else if filter[0] == '#' then
        false
      else
        var fp := FirstLevel(filter);
        if tp != fp || (|tp| == |topic| && |fp| == |filter|) then false
        else
          |tp| + 1 > |topic| || |fp| + 1 > |filter| ||
          Overruns(Drop(filter, |fp| + 1), Drop(topic, |tp| + 1))
  }

  // One turn of the loop, on the views that start at `f` and `t`.

  lemma FilterExhausted(filter: string, topic: string, t: nat)
    requires t < |topic|
    ensures !MatchesClamped(filter[|filter|..], topic[t..]) && !Overruns(filter[|filter|..], topic[t..])
  {
  }

  lemma TopicExhausted(filter: string, topic: string, f: nat)
    requires f <= |filter|
    ensures MatchesClamped(filter[f..], topic[|topic|..]) == (f == |filter|)
    ensures !Overruns(filter[f..], topic[|topic|..])
  {
  }

  lemma PlusTurn(filter: string, topic: string, f: nat, t: nat, tp: nat)
    requires f < |filter| && t < |topic| && filter[f] == '+' && tp == SlashIndex(topic[t..])
    ensures MatchesClamped(filter[f..], topic[t..]) ==
            MatchesClamped(filter[Min(f + 2, |filter|)..], topic[Min(t + tp + 1, |topic|)..])
    ensures Overruns(filter[f..], topic[t..]) ==
            (tp + 1 > |topic| - t || 2 > |filter| - f ||
             Overruns(filter[Min(f + 2, |filter|)..], topic[Min(t + tp + 1, |topic|)..]))
  {
    assert Drop(topic[t..], tp + 1) == topic[Min(t + tp + 1, |topic|)..];
    assert Drop(filter[f..], 2) == filter[Min(f + 2, |filter|)..];
  }

  lemma HashTurn(filter: string, topic: string, f: nat, t: nat)
    requires f < |filter| && t < |topic| && filter[f] == '#'
    ensures MatchesClamped(filter[f..], topic[t..]) && !Overruns(filter[f..], topic[t..])
  {
  }

  lemma LiteralDiffers(filter: string, topic: string, f: nat, t: nat, tp: nat, fp: nat)
    requires f < |filter| && t < |topic| && filter[f] != '+' && filter[f] != '#'
    requires tp == SlashIndex(topic[t..]) && fp == SlashIndex(filter[f..])
    requires t + tp <= |topic| && f + fp <= |filter| && topic[t..t + tp] != filter[f..f + fp]
    ensures !MatchesClamped(filter[f..], topic[t..]) && !Overruns(filter[f..], topic[t..])
  {
    assert FirstLevel(topic[t..]) == topic[t..t + tp];
    assert FirstLevel(filter[f..]) == filter[f..f + fp];
  }

  lemma LiteralLast(filter: string, topic: string, f: nat, t: nat, tp: nat, fp: nat)
    requires f < |filter| && t < |topic| && filter[f] != '+' && filter[f] != '#'
    requires tp == SlashIndex(topic[t..]) && fp == SlashIndex(filter[f..])
    requires tp == |topic| - t && fp == |filter| - f && topic[t..t + tp] == filter[f..f + fp]
    ensures MatchesClamped(filter[f..], topic[t..]) && !Overruns(filter[f..], topic[t..])
  {
    assert FirstLevel(topic[t..]) == topic[t..t + tp];
    assert FirstLevel(filter[f..]) == filter[f..f + fp];
  }

  lemma LiteralAdvance(filter: string, topic: string, f: nat, t: nat, tp: nat, fp: nat)
    requires f < |filter| && t < |topic| && filter[f] != '+' && filter[f] != '#'
    requires tp == SlashIndex(topic[t..]) && fp == SlashIndex(filter[f..])
    requires t + tp <= |topic| && f + fp <= |filter| && topic[t..t + tp] == filter[f..f + fp]
    requires !(tp == |topic| - t && fp == |filter| - f)
    ensures MatchesClamped(filter[f..], topic[t..]) ==
            MatchesClamped(filter[Min(f + fp + 1, |filter|)..], topic[Min(t + tp + 1, |topic|)..])
    ensures Overruns(filter[f..], topic[t..]) ==
            (tp + 1 > |topic| - t || fp + 1 > |filter| - f ||
             Overruns(filter[Min(f + fp + 1, |filter|)..], topic[Min(t + tp + 1, |topic|)..]))
  {
    LiteralViews(filter, topic, f, t);
    DropAt(topic, t, tp + 1);
    DropAt(filter, f, fp + 1);
    LiteralStepTo(filter[f..], topic[t..], filter[Min(f + fp + 1, |filter|)..], topic[Min(t + tp + 1, |topic|)..]);
  }

  /** `LiteralStep` with the two rests named. */
  lemma LiteralStepTo(filter: string, topic: string, filterRest: string, topicRest: string)
    requires |filter| > 0 && |topic| > 0
    requires filter[0] != '+' && filter[0] != '#'
    requires FirstLevel(filter) == FirstLevel(topic)
    requires !(SlashIndex(topic) == |topic| && SlashIndex(filter) == |filter|)
    requires filterRest == Drop(filter, SlashIndex(filter) + 1) && topicRest == Drop(topic, SlashIndex(topic) + 1)
    ensures MatchesClamped(filter, topic) == MatchesClamped(filterRest, topicRest)
    ensures Overruns(filter, topic) ==
            (SlashIndex(topic) + 1 > |topic| || SlashIndex(filter) + 1 > |filter| || Overruns(filterRest, topicRest))
  {
    LiteralStep(filter, topic);
  }

  /** The literal-branch preconditions of `LiteralStep`, on the views that
    * start at `f` and `t`. */
  lemma LiteralViews(filter: string, topic: string, f: nat, t: nat)
    requires f < |filter| && t < |topic|
    requires t + SlashIndex(topic[t..]) <= |topic| && f + SlashIndex(filter[f..]) <= |filter|
    requires topic[t..t + SlashIndex(topic[t..])] == filter[f..f + SlashIndex(filter[f..])]
    ensures FirstLevel(filter[f..]) == FirstLevel(topic[t..])
  {
    FirstLevelAt(topic, t);
    FirstLevelAt(filter, f);
  }

  /** The first level of the view that starts at `k`. */
  lemma FirstLevelAt(s: string, k: nat)
    requires k <= |s|
    ensures k + SlashIndex(s[k..]) <= |s|
    ensures FirstLevel(s[k..]) == s[k..k + SlashIndex(s[k..])]
  {
  }

  /** Removing `n` characters from the view that starts at `k`. */
  lemma DropAt(s: string, k: nat, n: nat)
    requires k <= |s|
    ensures Drop(s[k..], n) == s[Min(k + n, |s|)..]
  {
  }

  /** One turn of that loop, on the views that start at `f` and `t`: either the
    * answer (`done`), or the starts of the next views. `over` says whether this
    * turn's `remove_prefix` calls went past the end of a view. */
  method MatchTurn(filter: string, topic: string, f: nat, t: nat)
      returns (done: bool, result: bool, over: bool, f': nat, t': nat)
    requires f <= |filter| && t < |topic|
    ensures done ==> !over && result == MatchesClamped(filter[f..], topic[t..]) && !Overruns(filter[f..], topic[t..])
    ensures !done ==> f' <= |filter| && t < t' <= |topic|
    ensures !done ==> MatchesClamped(filter[f..], topic[t..]) == MatchesClamped(filter[f'..], topic[t'..])
    ensures !done ==> Overruns(filter[f..], topic[t..]) == (over || Overruns(filter[f'..], topic[t'..]))
  {
    f', t' := f, t;
    if f == |filter| {
      FilterExhausted(filter, topic, t);
      return true, false, false, f', t';
    }
    var tpLen := SlashIndex(topic[t..]);
    if filter[f] == '+' {
      PlusTurn(filter, topic, f, t, tpLen);
      over := tpLen + 1 > |topic| - t || 2 > |filter| - f;
      return false, false, over, Min(f + 2, |filter|), Min(t + tpLen + 1, |topic|);
    } else if filter[f] == '#' {
      HashTurn(filter, topic, f, t);
      return true, true, false, f', t';
    }
    done, result, over, f', t' := LiteralMove(filter, topic, f, t, tpLen);
  }

  /** The turn on a literal filter level: compare it with the topic level. */
  method LiteralMove(filter: string, topic: string, f: nat, t: nat, tpLen: nat)
      returns (done: bool, result: bool, over: bool, f': nat, t': nat)
    requires f < |filter| && t < |topic| && filter[f] != '+' && filter[f] != '#'
    requires tpLen == SlashIndex(topic[t..])
    ensures done ==> !over && result == MatchesClamped(filter[f..], topic[t..]) && !Overruns(filter[f..], topic[t..])
    ensures !done ==> f' <= |filter| && t < t' <= |topic|
    ensures !done ==> MatchesClamped(filter[f..], topic[t..]) == MatchesClamped(filter[f'..], topic[t'..])
    ensures !done ==> Overruns(filter[f..], topic[t..]) == (over || Overruns(filter[f'..], topic[t'..]))
  {
    f', t' := f, t;
    var fpLen := SlashIndex(filter[f..]);
    if topic[t..t + tpLen] != filter[f..f + fpLen] {
      LiteralDiffers(filter, topic, f, t, tpLen, fpLen);
      return true, false, false, f', t';
    }
    if tpLen == |topic| - t && fpLen == |filter| - f {
      LiteralLast(filter, topic, f, t, tpLen, fpLen);
      return true, true, false, f', t';
    }
    LiteralAdvance(filter, topic, f, t, tpLen, fpLen);
    over := tpLen + 1 > |topic| - t || fpLen + 1 > |filter| - f;
    return false, false, over, Min(f + fpLen + 1, |filter|), Min(t + tpLen + 1, |topic|);
  }

  /** The while loop of `TopicMatchesSubscription`, over two indices into the
    * original strings (the starts of the two views). `overran` reports whether a
    * `remove_prefix` went past the end of its view; the loop then goes on with the
    * clamped view. */
  method TopicMatchesSubscription(filter: string, topic: string) returns (matched: bool, overran: bool)
    ensures matched == MatchesClamped(filter, topic)
    ensures overran == Overruns(filter, topic)
  {
    var f, t := 0, 0;
    overran := false;
    assert filter[0..] == filter && topic[0..] == topic;
    while t < |topic|
      invariant 0 <= f <= |filter| && 0 <= t <= |topic|
      invariant MatchesClamped(filter, topic) == MatchesClamped(filter[f..], topic[t..])
      invariant Overruns(filter, topic) == (overran || Overruns(filter[f..], topic[t..]))
      decreases |topic| - t
    {
      var done, result, over;
      done, result, over, f, t := MatchTurn(filter, topic, f, t);
      overran := overran || over;
      if done {
        return result, overran;
      }
    }
    TopicExhausted(filter, topic, f);
    matched := f == |filter|;
  }

  // ---------------------------------------------------------------------------
  // Reference: level-by-level matching (MQTT 3.1.1, section 4.7)
  // ---------------------------------------------------------------------------

  /** The `/`-separated levels of `s`; "" has one empty level. */
  function Levels(s: string): (ls: seq<string>)
    ensures |ls| >= 1
    decreases |s|
  {
    var i := SlashIndex(s);
    if i == |s| then [s] else [s[..i]] + Levels(s[i + 1..])
  }

  /** Joins levels back together with `/`. */
  function Join(ls: seq<string>): string
    requires |ls| >= 1
  {
    if |ls| == 1 then ls[0] else ls[0] + "/" + Join(ls[1..])
  }

  /** Sections 4.7.1.2 and 4.7.1.3: `+` matches exactly one level, `#` matches the
    * remaining levels, including none (so "a/#" matches "a"). */
  function LevelsMatch(fs: seq<string>, ts: seq<string>): bool
    decreases |fs|
  {
    if |fs| == 0 then |ts| == 0
    else if fs[0] == "#" then true
    else if |ts| == 0 then false
    else (fs[0] == "+" || fs[0] == ts[0]) && LevelsMatch(fs[1..], ts[1..])
  }

  /** Does `filter` match `topic` by the rules of section 4.7? */
  function Matches(filter: string, topic: string): bool
  {
    LevelsMatch(Levels(filter), Levels(topic))
  }

  predicate WildcardFree(filter: string)
  {
    forall k :: 0 <= k < |filter| ==> filter[k] != '+' && filter[k] != '#'
  }

  /** Section 4.7.1: a wildcard occupies a whole level, and `#` only the last one. */
  predicate WellFormedLevels(ls: seq<string>)
  {
    (forall i :: 0 <= i < |ls| ==> WholeLevelWildcard(ls[i])) &&
    (forall i :: 0 <= i < |ls| - 1 ==> ls[i] != "#")
  }

  /** A level that holds a wildcard character is that wildcard alone. */
  predicate WholeLevelWildcard(l: string)
  {
    ('+' in l || '#' in l) ==> (l == "+" || l == "#")
  }

  predicate WellFormedFilter(filter: string)
  {
    WellFormedLevels(Levels(filter))
  }

  // ---------------------------------------------------------------------------
  // Lemmas about the reference
  // ---------------------------------------------------------------------------

  lemma {:induction false} JoinLevels(s: string)
    ensures Join(Levels(s)) == s
    decreases |s|
  {
    var i := SlashIndex(s);
    if i < |s| {
      JoinLevels(s[i + 1..]);
      assert s == s[..i] + "/" + s[i + 1..];
    }
  }

  /** Splitting into levels loses nothing: different strings have different levels. */
  lemma LevelsInjective(a: string, b: string)
    requires Levels(a) == Levels(b)
    ensures a == b
  {
    JoinLevels(a);
    JoinLevels(b);
  }

  lemma {:induction false} WildcardFreeLevels(s: string)
    requires WildcardFree(s)
    ensures forall i :: 0 <= i < |Levels(s)| ==> Levels(s)[i] != "+" && Levels(s)[i] != "#"
    decreases |s|
  {
    var i := SlashIndex(s);
    if i < |s| {
      var r := s[i + 1..];
      assert WildcardFree(r) by {
        forall k | 0 <= k < |r| ensures r[k] != '+' && r[k] != '#' {
          assert r[k] == s[i + 1 + k];
        }
      }
      WildcardFreeLevels(r);
      var l := s[..i];
      assert l != "+" && l != "#" by {
        if |l| == 1 { assert l[0] == s[0]; }
      }
    } else {
      assert s != "+" && s != "#" by {
        if |s| == 1 { assert s[0] != '+'; }
      }
    }
  }

  lemma {:induction false} LevelsMatchLiteral(fs: seq<string>, ts: seq<string>)
    requires forall i :: 0 <= i < |fs| ==> fs[i] != "+" && fs[i] != "#"
    ensures LevelsMatch(fs, ts) <==> fs == ts
    decreases |fs|
  {
    if |fs| > 0 && |ts| > 0 {
      LevelsMatchLiteral(fs[1..], ts[1..]);
      if fs[1..] == ts[1..] && fs[0] == ts[0] {
        assert fs == [fs[0]] + fs[1..];
        assert ts == [ts[0]] + ts[1..];
      }
    }
  }

  /** The reference agrees with string equality on filters without wildcards. */
  lemma ReferenceWildcardFreeIsEquality(filter: string, topic: string)
    requires WildcardFree(filter)
    ensures Matches(filter, topic) <==> filter == topic
  {
    WildcardFreeLevels(filter);
    LevelsMatchLiteral(Levels(filter), Levels(topic));
    if Levels(filter) == Levels(topic) {
      LevelsInjective(filter, topic);
    }
  }

  // ---------------------------------------------------------------------------
  // Lemmas about the source's matcher
  // ---------------------------------------------------------------------------

  /** Line 283: a non-empty topic never matches an empty filter. */
  lemma EmptyFilterMatchesNothing(topic: string)
    requires |topic| > 0
    ensures !MatchesClamped("", topic)
  {
  }

  /** Lines 291-293: a literal first level that differs from the topic's first
    * level rejects the topic. */
  lemma LiteralLevelMismatch(filter: string, topic: string)
    requires |filter| > 0 && |topic| > 0
    requires filter[0] != '+' && filter[0] != '#'
    requires FirstLevel(filter) != FirstLevel(topic)
    ensures !MatchesClamped(filter, topic)
  {
  }

  /** Lines 288-289: a filter whose current level starts with `#` matches any
    * non-empty remaining topic. */
  lemma HashMatchesAnyRest(rest: string, topic: string)
    requires |topic| > 0
    ensures MatchesClamped("#" + rest, topic)
    ensures !Overruns("#" + rest, topic)
  {
  }

  predicate NoSlash(l: string)
  {
    forall k :: 0 <= k < |l| ==> l[k] != '/'
  }

  lemma SlashIndexOfLevel(level: string, rest: string)
    requires NoSlash(level)
    ensures SlashIndex(level + "/" + rest) == |level|
    ensures FirstLevel(level + "/" + rest) == level
    ensures Drop(level + "/" + rest, |level| + 1) == rest
  {
    var s := level + "/" + rest;
    assert s[|level|] == '/';
    NoSlashBefore(s);
    assert forall k :: 0 <= k < |level| ==> s[k] == level[k];
    assert s[..|level|] == level;
    assert s[|level| + 1..] == rest;
  }

  /** A string is its first level, the `/`, and the rest. */
  lemma Recompose(s: string, i: nat)
    requires i < |s| && s[i] == '/'
    ensures s == s[..i] + "/" + s[i + 1..]
  {
  }

  lemma SlashIndexOfWhole(level: string)
    requires NoSlash(level)
    ensures SlashIndex(level) == |level| && FirstLevel(level) == level
  {
  }

  /** Lines 285-287: `+` consumes exactly one level of the topic. */
  lemma PlusConsumesOneLevel(level: string, filterRest: string, topicRest: string)
    requires NoSlash(level)
    ensures MatchesClamped("+/" + filterRest, level + "/" + topicRest) == MatchesClamped(filterRest, topicRest)
    ensures Overruns("+/" + filterRest, level + "/" + topicRest) == Overruns(filterRest, topicRest)
  {
    SlashIndexOfLevel(level, topicRest);
    assert Drop("+/" + filterRest, 2) == filterRest;
  }

  /** Lines 291-299: equal literal levels followed by `/` in both are consumed together. */
  lemma LiteralLevelConsumed(level: string, filterRest: string, topicRest: string)
    requires NoSlash(level) && |level| > 0 && level[0] != '+' && level[0] != '#'
    ensures MatchesClamped(level + "/" + filterRest, level + "/" + topicRest) == MatchesClamped(filterRest, topicRest)
    ensures Overruns(level + "/" + filterRest, level + "/" + topicRest) == Overruns(filterRest, topicRest)
  {
    SlashIndexOfLevel(level, topicRest);
    SlashIndexOfLevel(level, filterRest);
    assert (level + "/" + filterRest)[0] == level[0];
  }

  /** One unfolding of the literal branch, where the two first levels are equal and
    * not both the whole rest. */
  lemma LiteralStep(filter: string, topic: string)
    requires |filter| > 0 && |topic| > 0
    requires filter[0] != '+' && filter[0] != '#'
    requires FirstLevel(filter) == FirstLevel(topic)
    requires !(SlashIndex(topic) == |topic| && SlashIndex(filter) == |filter|)
    ensures MatchesClamped(filter, topic) ==
            MatchesClamped(Drop(filter, SlashIndex(filter) + 1), Drop(topic, SlashIndex(topic) + 1))
    ensures Overruns(filter, topic) ==
            (SlashIndex(topic) == |topic| || SlashIndex(filter) == |filter| ||
             Overruns(Drop(filter, SlashIndex(filter) + 1), Drop(topic, SlashIndex(topic) + 1)))
  {
    assert |FirstLevel(topic)| == SlashIndex(topic) && |FirstLevel(filter)| == SlashIndex(filter);
  }

  /** Without wildcards, and when no `remove_prefix` overruns, the source matches
    * exactly the topic equal to the filter; equal strings never overrun. */
  lemma {:induction false} WildcardFreeMatchesIffEqual(filter: string, topic: string)
    requires WildcardFree(filter)
    ensures filter == topic ==> MatchesClamped(filter, topic) && !Overruns(filter, topic)
    ensures MatchesClamped(filter, topic) && !Overruns(filter, topic) ==> filter == topic
    decreases |topic|, 1
  {
    if |topic| > 0 && |filter| > 0 {
      assert filter[0] != '+' && filter[0] != '#';
      var ti, fi := SlashIndex(topic), SlashIndex(filter);
      if FirstLevel(filter) != FirstLevel(topic) {
        LiteralLevelMismatch(filter, topic);
      } else if ti < |topic| && fi < |filter| {
        WildcardFreeSeparators(filter, topic);
      } else if ti < |topic| || fi < |filter| {
        // Exactly one view runs out: the run overruns, and the strings differ.
        LiteralStep(filter, topic);
      }
    }
  }

  /** The literal case of `WildcardFreeMatchesIffEqual` where both first levels
    * are followed by a separator: the answer is that of the rests. */
  lemma {:induction false} WildcardFreeSeparators(filter: string, topic: string)
    requires WildcardFree(filter) && |filter| > 0 && |topic| > 0
    requires filter[0] != '+' && filter[0] != '#'
    requires FirstLevel(filter) == FirstLevel(topic)
    requires SlashIndex(topic) < |topic| && SlashIndex(filter) < |filter|
    ensures filter == topic ==> MatchesClamped(filter, topic) && !Overruns(filter, topic)
    ensures MatchesClamped(filter, topic) && !Overruns(filter, topic) ==> filter == topic
    decreases |topic|, 0
  {
    var ti, fi := SlashIndex(topic), SlashIndex(filter);
    LiteralStep(filter, topic);
    var f', t' := filter[fi + 1..], topic[ti + 1..];
    assert WildcardFree(f') by {
      forall k | 0 <= k < |f'| ensures f'[k] != '+' && f'[k] != '#' {
        assert f'[k] == filter[fi + 1 + k];
      }
    }
    WildcardFreeMatchesIffEqual(f', t');
    Recompose(topic, ti);
    Recompose(filter, fi);
    if filter == topic {
      assert f' == t';
    }
  }

  lemma FilterFirstLevel(filter: string)
    requires |filter| > 0
    ensures Levels(filter)[0] == FirstLevel(filter)
    ensures |FirstLevel(filter)| > 0 ==> FirstLevel(filter)[0] == filter[0]
  {
  }

  /** The source, where it stays in bounds and the filter is well formed, accepts
    * only topics that section 4.7 accepts. */
  lemma {:induction false} ClampedMatchIsSound(filter: string, topic: string)
    requires WellFormedFilter(filter)
    requires !Overruns(filter, topic)
    requires MatchesClamped(filter, topic)
    ensures Matches(filter, topic)
    decreases |topic|, 1
  {
    if |topic| == 0 {
      assert filter == "";
    } else if filter[0] == '+' {
      PlusLevelSound(filter, topic);
    } else if filter[0] == '#' {
      FilterFirstLevel(filter);
      var fs := Levels(filter);
      assert WholeLevelWildcard(fs[0]);
      assert fs[0][0] == '#';
      assert fs[0] == "#";
    } else {
      LiteralLevelSound(filter, topic);
    }
  }

  lemma {:induction false} PlusLevelSound(filter: string, topic: string)
    requires WellFormedFilter(filter)
    requires !Overruns(filter, topic)
    requires MatchesClamped(filter, topic)
    requires |topic| > 0 && filter[0] == '+'
    ensures Matches(filter, topic)
    decreases |topic|, 0
  {
    PlusRest(filter, topic);
    ClampedMatchIsSound(filter[2..], topic[SlashIndex(topic) + 1..]);
    MatchesAfterFirst(filter, topic);
  }

  /** A `+` level that matches without overrun is followed by a separator on
    * both sides, and the rests satisfy what the whole did. */
  lemma PlusRest(filter: string, topic: string)
    requires WellFormedFilter(filter)
    requires !Overruns(filter, topic)
    requires MatchesClamped(filter, topic)
    requires |topic| > 0 && filter[0] == '+'
    ensures SlashIndex(topic) < |topic| && SlashIndex(filter) == 1 && FirstLevel(filter) == "+"
    ensures var f', t' := filter[2..], topic[SlashIndex(topic) + 1..];
            WellFormedFilter(f') && !Overruns(f', t') && MatchesClamped(f', t')
  {
    PlusUnfold(filter, topic);
    PlusLevelShape(filter);
    WellFormedTail(filter);
  }

  /** One unfolding of the `+` branch where nothing overruns: the topic has a
    * '/' after its first level, the filter has at least two characters, and
    * the rests match without overrun. */
  lemma PlusUnfold(filter: string, topic: string)
    requires !Overruns(filter, topic)
    requires MatchesClamped(filter, topic)
    requires |topic| > 0 && |filter| > 0 && filter[0] == '+'
    ensures SlashIndex(topic) < |topic| && |filter| >= 2
    ensures !Overruns(filter[2..], topic[SlashIndex(topic) + 1..])
    ensures MatchesClamped(filter[2..], topic[SlashIndex(topic) + 1..])
  {
    var ti := SlashIndex(topic);
    PlusStep(filter, topic);
    assert Drop(filter, 2) == filter[2..] && Drop(topic, ti + 1) == topic[ti + 1..];
  }

  /** One unfolding of the `+` branch. */
  lemma PlusStep(filter: string, topic: string)
    requires |topic| > 0 && |filter| > 0 && filter[0] == '+'
    ensures MatchesClamped(filter, topic) ==
            MatchesClamped(Drop(filter, 2), Drop(topic, SlashIndex(topic) + 1))
    ensures Overruns(filter, topic) ==
            (SlashIndex(topic) + 1 > |topic| || 2 > |filter| ||
             Overruns(Drop(filter, 2), Drop(topic, SlashIndex(topic) + 1)))
  {
    assert |FirstLevel(topic)| == SlashIndex(topic);
  }

  /** In a well-formed filter, a leading `+` is a whole level. */
  lemma PlusLevelShape(filter: string)
    requires WellFormedFilter(filter) && |filter| >= 2 && filter[0] == '+'
    ensures SlashIndex(filter) == 1 && FirstLevel(filter) == "+"
  {
    var fs := Levels(filter);
    FilterFirstLevel(filter);
    assert WholeLevelWildcard(fs[0]);
    assert fs[0][0] == '+';
    assert fs[0] == "+";
  }

  lemma {:induction false} LiteralLevelSound(filter: string, topic: string)
    requires WellFormedFilter(filter)
    requires !Overruns(filter, topic)
    requires MatchesClamped(filter, topic)
    requires |topic| > 0 && |filter| > 0 && filter[0] != '+' && filter[0] != '#'
    ensures Matches(filter, topic)
    decreases |topic|, 0
  {
    LiteralSameLevel(filter, topic);
    if SlashIndex(topic) == |topic| && SlashIndex(filter) == |filter| {
      OnlyLevels(filter, topic);
    } else {
      LiteralNotHash(filter);
      LiteralRest(filter, topic);
      ClampedMatchIsSound(filter[SlashIndex(filter) + 1..], topic[SlashIndex(topic) + 1..]);
      MatchesAfterFirst(filter, topic);
    }
  }

  /** A first level that does not start with `#` is not `#`. */
  lemma LiteralNotHash(filter: string)
    requires |filter| > 0 && filter[0] != '#'
    ensures FirstLevel(filter) != "#"
  {
    FilterFirstLevel(filter);
    if |FirstLevel(filter)| == 1 {
      assert FirstLevel(filter)[0] == filter[0];
    }
  }

  /** Two strings without a '/' and with the same first level match. */
  lemma OnlyLevels(filter: string, topic: string)
    requires SlashIndex(filter) == |filter| && SlashIndex(topic) == |topic|
    requires FirstLevel(filter) == FirstLevel(topic)
    ensures Matches(filter, topic)
  {
    LevelsWhole(filter);
    LevelsWhole(topic);
    assert filter == FirstLevel(filter) && topic == FirstLevel(topic);
  }

  /** A string without a '/' is a single level. */
  lemma LevelsWhole(s: string)
    requires SlashIndex(s) == |s|
    ensures Levels(s) == [s]
  {
  }

  /** A literal first level that matches and is not the last on both sides is
    * followed by a separator on both sides, and the rests satisfy what the
    * whole did. */
  lemma LiteralRest(filter: string, topic: string)
    requires WellFormedFilter(filter)
    requires !Overruns(filter, topic)
    requires MatchesClamped(filter, topic)
    requires |topic| > 0 && |filter| > 0 && filter[0] != '+' && filter[0] != '#'
    requires !(SlashIndex(topic) == |topic| && SlashIndex(filter) == |filter|)
    ensures SlashIndex(topic) < |topic| && SlashIndex(filter) < |filter|
    ensures var f', t' := filter[SlashIndex(filter) + 1..], topic[SlashIndex(topic) + 1..];
            WellFormedFilter(f') && !Overruns(f', t') && MatchesClamped(f', t')
  {
    LiteralUnfold(filter, topic);
    WellFormedTail(filter);
  }

  /** A literal first level matches only the same topic level. */
  lemma LiteralSameLevel(filter: string, topic: string)
    requires MatchesClamped(filter, topic)
    requires |topic| > 0 && |filter| > 0 && filter[0] != '+' && filter[0] != '#'
    ensures FirstLevel(filter) == FirstLevel(topic)
  {
  }

  /** One unfolding of the literal branch where nothing overruns and the
    * levels are not both the last: both go on after a '/', and the rests
    * match without overrun. */
  lemma LiteralUnfold(filter: string, topic: string)
    requires !Overruns(filter, topic)
    requires MatchesClamped(filter, topic)
    requires |topic| > 0 && |filter| > 0 && filter[0] != '+' && filter[0] != '#'
    requires !(SlashIndex(topic) == |topic| && SlashIndex(filter) == |filter|)
    ensures SlashIndex(topic) < |topic| && SlashIndex(filter) < |filter|
    ensures !Overruns(filter[SlashIndex(filter) + 1..], topic[SlashIndex(topic) + 1..])
    ensures MatchesClamped(filter[SlashIndex(filter) + 1..], topic[SlashIndex(topic) + 1..])
  {
    var ti, fi := SlashIndex(topic), SlashIndex(filter);
    LiteralSameLevel(filter, topic);
    LiteralStep(filter, topic);
    assert ti < |topic| && fi < |filter|;
    var fr, tr := Drop(filter, fi + 1), Drop(topic, ti + 1);
    assert MatchesClamped(fr, tr) && !Overruns(fr, tr);
    assert fr == filter[fi + 1..] && tr == topic[ti + 1..];
  }

  /** When both strings go on after their first level, and the filter's first
    * level is `+` or the topic's, the reference match is that of the rests. */
  lemma MatchesAfterFirst(filter: string, topic: string)
    requires SlashIndex(filter) < |filter| && SlashIndex(topic) < |topic|
    requires FirstLevel(filter) != "#"
    requires FirstLevel(filter) == "+" || FirstLevel(filter) == FirstLevel(topic)
    ensures Matches(filter, topic) == Matches(filter[SlashIndex(filter) + 1..], topic[SlashIndex(topic) + 1..])
  {
    var fs, ts := Levels(filter), Levels(topic);
    assert fs == [FirstLevel(filter)] + Levels(filter[SlashIndex(filter) + 1..]);
    assert ts == [FirstLevel(topic)] + Levels(topic[SlashIndex(topic) + 1..]);
    assert fs[1..] == Levels(filter[SlashIndex(filter) + 1..]);
    assert ts[1..] == Levels(topic[SlashIndex(topic) + 1..]);
  }

  /** The levels after the first one of a well-formed filter are well formed. */
  lemma WellFormedTail(filter: string)
    requires WellFormedFilter(filter)
    requires SlashIndex(filter) < |filter|
    ensures WellFormedFilter(filter[SlashIndex(filter) + 1..])
  {
    LevelsAfterFirst(filter);
    WellFormedLevelsTail(Levels(filter));
  }

  /** A string that goes on after its first level has that level, then the
    * levels of the rest. */
  lemma LevelsAfterFirst(s: string)
    requires SlashIndex(s) < |s|
    ensures Levels(s)[0] == FirstLevel(s)
    ensures Levels(s)[1..] == Levels(s[SlashIndex(s) + 1..])
  {
    LevelsUnfold(s);
    ConsTail(s[..SlashIndex(s)], Levels(s[SlashIndex(s) + 1..]));
  }

  lemma LevelsUnfold(s: string)
    requires SlashIndex(s) != |s|
    ensures Levels(s) == [s[..SlashIndex(s)]] + Levels(s[SlashIndex(s) + 1..])
  {
  }

  lemma ConsTail<T>(x: T, r: seq<T>)
    ensures ([x] + r)[0] == x && ([x] + r)[1..] == r
  {
  }

  /** Dropping the first level keeps a sequence of levels well formed. */
  lemma WellFormedLevelsTail(ls: seq<string>)
    requires WellFormedLevels(ls) && |ls| >= 1
    ensures WellFormedLevels(ls[1..])
  {
    var rest := ls[1..];
    forall j | 0 <= j < |rest| ensures WholeLevelWildcard(rest[j]) {
      assert rest[j] == ls[j + 1];
    }
    forall j | 0 <= j < |rest| - 1 ensures rest[j] != "#" {
      assert rest[j] == ls[j + 1];
    }
  }

  // ---------------------------------------------------------------------------
  // Worked examples
  // ---------------------------------------------------------------------------

  /** `+` stands for one level: "a/+/c" matches "a/b/c"... */
  lemma PlusMatchesOneLevel()
    ensures MatchesClamped("a/+/c", "a/b/c") && !Overruns("a/+/c", "a/b/c")
  {
    assert NoSlash("a") && NoSlash("b") && NoSlash("c");
    assert "a/+/c" == "a" + "/" + "+/c";
    assert "a/b/c" == "a" + "/" + "b/c";
    LiteralLevelConsumed("a", "+/c", "b/c");
    assert "+/c" == "+/" + "c";
    assert "b/c" == "b" + "/" + "c";
    PlusConsumesOneLevel("b", "c", "c");
    SlashIndexOfWhole("c");
  }

  /** ... and not two: "a/+/c" rejects "a/b/b/c". */
  lemma PlusRejectsTwoLevels()
    ensures !MatchesClamped("a/+/c", "a/b/b/c")
  {
    assert NoSlash("a");
    assert "a/+/c" == "a" + "/" + "+/c";
    assert "a/b/b/c" == "a" + "/" + "b/b/c";
    LiteralLevelConsumed("a", "+/c", "b/b/c");
    PlusRejectsSecondLevel();
  }

  lemma PlusRejectsSecondLevel()
    ensures !MatchesClamped("+/c", "b/b/c")
  {
    assert NoSlash("b");
    assert "+/c" == "+/" + "c";
    assert "b/b/c" == "b" + "/" + "b/c";
    PlusConsumesOneLevel("b", "c", "b/c");
    LiteralRejectsOtherLevel();
  }

  lemma LiteralRejectsOtherLevel()
    ensures !MatchesClamped("c", "b/c")
  {
    assert NoSlash("b") && NoSlash("c");
    SlashIndexOfWhole("c");
    SlashIndexOfLevel("b", "c");
    assert "b/c" == "b" + "/" + "c";
    LiteralLevelMismatch("c", "b/c");
  }

  /** `#` takes any non-empty rest (lines 302-303). */
  lemma HashTakesDeeperTopic()
    ensures MatchesClamped("a/#", "a/b/c") && !Overruns("a/#", "a/b/c")
  {
    assert NoSlash("a") && NoSlash("#");
    assert "a/#" == "a" + "/" + "#";
    assert "a/b/c" == "a" + "/" + "b/c";
    LiteralLevelConsumed("a", "#", "b/c");
    HashMatchesAnyRest("", "b/c");
    SlashIndexOfLevel("a", "#");
  }

  /** ... but not an empty one: "a/#" rejects "a", which section 4.7.1.2 accepts;
    * that run also overruns. */
  lemma HashRejectsParentLevel()
    ensures !MatchesClamped("a/#", "a") && Overruns("a/#", "a")
    ensures Matches("a/#", "a")
  {
    assert NoSlash("a") && NoSlash("#");
    assert "a/#" == "a" + "/" + "#";
    SlashIndexOfLevel("a", "#");
    SlashIndexOfWhole("a");
    LiteralStep("a/#", "a");
    assert Levels("a/#") == ["a", "#"];
    assert Levels("a") == ["a"];
  }

  /** An empty last level is a level `#` takes. */
  lemma HashTakesEmptyLevel()
    ensures !MatchesClamped("a/#", "a/") && !Overruns("a/#", "a/") && Matches("a/#", "a/")
  {
    assert NoSlash("a") && NoSlash("#");
    assert "a/#" == "a" + "/" + "#";
    assert "a/" == "a" + "/" + "";
    LiteralLevelConsumed("a", "#", "");
    SlashIndexOfLevel("a", "#");
    SlashIndexOfLevel("a", "");
    assert Levels("a/#") == ["a", "#"];
    assert Levels("") == [""];
    assert Levels("a/") == ["a", ""];
  }

  /** A filter without wildcards does not take a deeper topic. */
  lemma LiteralRejectsDeeperTopic()
    ensures !MatchesClamped("a/b", "a/b/c")
  {
    assert NoSlash("a") && NoSlash("b");
    assert "a/b/c" == "a" + "/" + "b/c";
    assert "a/b" == "a" + "/" + "b";
    assert "b/c" == "b" + "/" + "c";
    LiteralLevelConsumed("a", "b", "b/c");
    SlashIndexOfWhole("b");
    SlashIndexOfLevel("b", "c");
    LiteralStep("b", "b/c");
  }

  /** Inputs on which the source calls `remove_prefix` past the end of a view:
    * `+` as the last filter level, and a topic shorter than the filter. On the
    * clamped reading "a" even matches "a/", which section 4.7 rejects. */
  lemma OverrunExamples()
    ensures Overruns("a/+", "a/b")
    ensures Overruns("a/b", "a")
    ensures Overruns("a", "a/") && MatchesClamped("a", "a/") && !Matches("a", "a/")
  {
    assert NoSlash("a") && NoSlash("b") && NoSlash("+");
    assert "a/+" == "a" + "/" + "+";
    assert "a/b" == "a" + "/" + "b";
    assert "a/" == "a" + "/" + "";
    LiteralLevelConsumed("a", "+", "b");
    SlashIndexOfWhole("b");
    SlashIndexOfWhole("a");
    SlashIndexOfLevel("a", "b");
    SlashIndexOfLevel("a", "");
    LiteralStep("a/b", "a");
    LiteralStep("a", "a/");
    assert Levels("a") == ["a"];
    assert Levels("") == [""];
    assert Levels("a/") == ["a", ""];
  }
}
