/** The topic matcher: section 4.7 of MQTT 3.1.1. */
module Topics {
  import opened Bytes
  import opened Utf8

  const SLASH: byte := 0x2F
  const PLUS_SIGN: byte := 0x2B
  const HASH_SIGN: byte := 0x23
  const DOLLAR: byte := 0x24

  const PLUS: bytes := [PLUS_SIGN]
  const HASH: bytes := [HASH_SIGN]

  // ---- Levels ----

  /** The parts between the separators; there is always at least one. */
  function Levels(s: bytes): (levels: seq<bytes>)
    ensures levels != []
  {
    if s == [] then
      [[]]
    else if s[0] == SLASH then
      [[]] + Levels(s[1..])
    else
      var rest := Levels(s[1..]);
      [[s[0]] + rest[0]] + rest[1..]
  }

  function JoinLevels(levels: seq<bytes>): bytes {
    if levels == [] then []
    else if |levels| == 1 then levels[0]
    else levels[0] + [SLASH] + JoinLevels(levels[1..])
  }

  lemma JoinCons(level: bytes, rest: seq<bytes>)
    requires rest != []
    ensures JoinLevels([level] + rest) == level + [SLASH] + JoinLevels(rest)
  {
    assert ([level] + rest)[1..] == rest;
  }

  lemma JoinGrow(b: byte, levels: seq<bytes>)
    requires levels != []
    ensures JoinLevels([[b] + levels[0]] + levels[1..]) == [b] + JoinLevels(levels)
  {
    var grown := [[b] + levels[0]] + levels[1..];
    assert grown[1..] == levels[1..];
    if |levels| > 1 {
      assert [b] + levels[0] + [SLASH] + JoinLevels(levels[1..])
        == [b] + (levels[0] + [SLASH] + JoinLevels(levels[1..]));
    }
  }

  lemma {:induction false} JoinOfLevels(s: bytes)
    ensures JoinLevels(Levels(s)) == s
  {
    if s != [] {
      JoinOfLevels(s[1..]);
      var rest := Levels(s[1..]);
      if s[0] == SLASH {
        JoinCons([], rest);
      } else {
        JoinGrow(s[0], rest);
      }
    }
  }

  predicate NoSlash(levels: seq<bytes>) {
    forall i :: 0 <= i < |levels| ==> SLASH !in levels[i]
  }

  lemma {:induction false} LevelsOfPrefix(level: bytes, tail: bytes)
    requires SLASH !in level
    ensures Levels(level + [SLASH] + tail) == [level] + Levels(tail)
    decreases |level|
  {
    var s := level + [SLASH] + tail;
    if level == [] {
      assert s[1..] == tail;
    } else {
      assert s[1..] == level[1..] + [SLASH] + tail;
      assert s[0] == level[0] && level[0] in level;
      LevelsOfPrefix(level[1..], tail);
      assert [level[0]] + level[1..] == level;
    }
  }

  lemma {:induction false} LevelsOfOne(level: bytes)
    requires SLASH !in level
    ensures Levels(level) == [level]
    decreases |level|
  {
    if level != [] {
      assert level[0] in level;
      LevelsOfOne(level[1..]);
      assert [level[0]] + level[1..] == level;
    }
  }

  lemma {:induction false} LevelsOfJoin(levels: seq<bytes>)
    requires levels != [] && NoSlash(levels)
    ensures Levels(JoinLevels(levels)) == levels
    decreases |levels|
  {
    if |levels| == 1 {
      LevelsOfOne(levels[0]);
    } else {
      LevelsOfPrefix(levels[0], JoinLevels(levels[1..]));
      LevelsOfJoin(levels[1..]);
    }
  }

  /** `str::split('/')`: what is left to be split, if anything. */
  class Split {
    var rest: Option<bytes>

    ghost function Pending(): seq<bytes>
      reads this
    {
      match rest
      case None => []
      case Some(s) => Levels(s)
    }

    constructor (s: bytes)
      ensures Pending() == Levels(s)
    {
      rest := Some(s);
    }

    method Next() returns (r: Option<bytes>)
      modifies this
      ensures match r
              case None => old(Pending()) == [] && Pending() == []
              case Some(level) => old(Pending()) == [level] + Pending()
    {
      if rest == None {
        return None;
      }
      var s := rest.value;
      var n := 0;
      while n < |s| && s[n] != SLASH
        invariant n <= |s| && SLASH !in s[..n]
      {
        n := n + 1;
      }
      if n == |s| {
        assert s[..n] == s;
        LevelsOfOne(s);
        rest := None;
      } else {
        assert s == s[..n] + [SLASH] + s[n + 1..];
        LevelsOfPrefix(s[..n], s[n + 1..]);
        rest := Some(s[n + 1..]);
      }
      return Some(s[..n]);
    }
  }

  // ---- Validity ----

  predicate HasWildcards(s: bytes) {
    PLUS_SIGN in s || HASH_SIGN in s
  }

  predicate ValidTopic(s: bytes) {
    !HasWildcards(s)
  }

  /** `#` stands alone in the last level only, and `+` stands alone in its level. */
  predicate ValidLevels(levels: seq<bytes>) {
    && (forall i :: 0 <= i < |levels| && HASH_SIGN in levels[i] ==> levels[i] == HASH && i == |levels| - 1)
    && (forall i :: 0 <= i < |levels| && PLUS_SIGN in levels[i] ==> levels[i] == PLUS)
  }

  /** The levels are inspected from the last one backwards. */
  method ValidFilter(filter: bytes) returns (valid: bool)
    ensures var levels := Levels(filter);
            && (valid <==> filter != [] && ValidLevels(levels))
            && (ValidLevels(levels) <==>
                  forall i :: 0 <= i < |levels| ==>
                    && (0x23 in levels[i] ==> levels[i] == [0x23] && i == |levels| - 1)
                    && (0x2B in levels[i] ==> levels[i] == [0x2B]))
  {
    if filter == [] {
      return false;
    }
    var levels := Levels(filter);
    var last := levels[|levels| - 1];
    if |last| != 1 && (HASH_SIGN in last || PLUS_SIGN in last) {
      return false;
    }
    var i := |levels| - 1;
    while i > 0
      invariant 0 <= i < |levels|
      invariant forall k :: i <= k < |levels| - 1 ==>
                HASH_SIGN !in levels[k] && (PLUS_SIGN in levels[k] ==> levels[k] == PLUS)
    {
      i := i - 1;
      var entry := levels[i];
      if HASH_SIGN in entry {
        return false;
      }
      if |entry| > 1 && PLUS_SIGN in entry {
        return false;
      }
    }
    return true;
  }

  // ---- Matching ----

  predicate MatchLevels(topic: seq<bytes>, filter: seq<bytes>) {
    if filter == [] then topic == []
    else if filter[0] == HASH then true
    else if topic == [] || topic[0] == HASH then false
    else (filter[0] == PLUS || filter[0] == topic[0]) && MatchLevels(topic[1..], filter[1..])
  }

  predicate Hidden(topic: bytes) {
    topic != [] && topic[0] == DOLLAR
  }

  predicate Matches(topic: bytes, filter: bytes) {
    !Hidden(topic) && MatchLevels(Levels(topic), Levels(filter))
  }

  /** The source slices off the first byte, which must therefore be a whole character. */
  method MatchTopic(topic: bytes, filter: bytes) returns (r: bool)
    requires topic != [] ==> topic[0] < 0x80
    ensures r == Matches(topic, filter)
  {
    if topic != [] && topic[0] == DOLLAR {
      return false;
    }
    var topics := new Split(topic);
    var filters := new Split(filter);
    while true
      invariant fresh(topics) && fresh(filters) && topics != filters
      invariant Matches(topic, filter) == MatchLevels(topics.Pending(), filters.Pending())
      decreases |filters.Pending()|
    {
      var f := filters.Next();
      if f == None {
        break;
      }
      if f.value == HASH {
        return true;
      }
      var top := topics.Next();
      if top == None || top.value == HASH {
        return false;
      }
      if f.value != PLUS && f.value != top.value {
        return false;
      }
    }
    var more := topics.Next();
    return more == None;
  }

  /**
   `levels` of a filter in front of its first `#`, and nothing behind them if there is none, against those of a topic.
   */
  lemma {:induction false} LevelsMatchIff(t: seq<bytes>, f: seq<bytes>, h: nat)
    requires h <= |f| && (h < |f| ==> f[h] == [0x23]) && forall i :: 0 <= i < h ==> f[i] != [0x23]
    ensures MatchLevels(t, f) <==>
            && h <= |t| && (h == |f| ==> |t| == h)
            && forall i :: 0 <= i < h ==> t[i] != [0x23] && (f[i] == [0x2B] || f[i] == t[i])
    decreases |f|
  {
    if h > 0 && t != [] {
      LevelsMatchIff(t[1..], f[1..], h - 1);
      assert forall i :: 0 <= i < |f| - 1 ==> f[1..][i] == f[i + 1];
      assert forall i :: 0 <= i < |t| - 1 ==> t[1..][i] == t[i + 1];
      assert forall i :: 0 < i < |f| ==> f[i] == f[1..][i - 1];
      assert forall i :: 0 < i < |t| ==> t[i] == t[1..][i - 1];
    }
  }

  /**
   Matching, character by character: no string that starts with `$` (0x24) is matched; a filter that has `#` (0x23) for
   its level `h`, and no earlier one, matches every string with at least `h` levels that agree with the filter in those,
   and a filter without `#` those with exactly as many levels; a level agrees if it is the same or if the filter has `+`
   (0x2B), but a `#` of the string agrees with nothing.
   */
  lemma MatchIff(topic: bytes, filter: bytes, h: nat)
    requires h <= |Levels(filter)| && (h < |Levels(filter)| ==> Levels(filter)[h] == [0x23])
    requires forall i :: 0 <= i < h ==> Levels(filter)[i] != [0x23]
    ensures var t, f := Levels(topic), Levels(filter);
            Matches(topic, filter) <==>
            && !(topic != [] && topic[0] == 0x24)
            && h <= |t| && (h == |f| ==> |t| == h)
            && forall i :: 0 <= i < h ==> t[i] != [0x23] && (f[i] == [0x2B] || f[i] == t[i])
  {
    LevelsMatchIff(Levels(topic), Levels(filter), h);
  }

  predicate WildFree(levels: seq<bytes>) {
    forall i :: 0 <= i < |levels| ==> ValidTopic(levels[i])
  }

  lemma WildFreeCons(level: bytes, rest: seq<bytes>)
    ensures WildFree([level] + rest) <==> ValidTopic(level) && WildFree(rest)
  {
    hide ValidTopic;
    var levels := [level] + rest;
    assert levels[0] == level && forall i :: 0 <= i < |rest| ==> levels[i + 1] == rest[i];
    assert forall i :: 0 < i < |levels| ==> levels[i] == rest[i - 1];
  }

  lemma ValidTopicCons(b: byte, s: bytes)
    ensures ValidTopic([b] + s) <==> b != 0x23 && b != 0x2B && ValidTopic(s)
  {
    assert ([b] + s)[0] == b && forall c :: c in [b] + s <==> c == b || c in s;
  }

  lemma {:induction false} WildFreeLevels(s: bytes)
    ensures ValidTopic(s) <==> WildFree(Levels(s))
  {
    if s == [] {
      assert Levels(s) == [[]];
    } else {
      var rest := Levels(s[1..]);
      WildFreeLevels(s[1..]);
      ValidTopicCons(s[0], s[1..]);
      assert [s[0]] + s[1..] == s;
      if s[0] == SLASH {
        WildFreeCons([], rest);
      } else {
        ValidTopicCons(s[0], rest[0]);
        WildFreeCons([s[0]] + rest[0], rest[1..]);
        WildFreeCons(rest[0], rest[1..]);
        assert [rest[0]] + rest[1..] == rest;
      }
    }
  }

  /** A topic is a string in whose levels there is neither `#` nor `+`. */
  lemma ValidTopicIff(s: bytes)
    ensures ValidTopic(s) <==> forall i :: 0 <= i < |Levels(s)| ==> 0x23 !in Levels(s)[i] && 0x2B !in Levels(s)[i]
  {
    WildFreeLevels(s);
    assert WildFree(Levels(s)) <==>
      forall i :: 0 <= i < |Levels(s)| ==> 0x23 !in Levels(s)[i] && 0x2B !in Levels(s)[i];
  }

  /** Levels end at `/` (0x2F), and nowhere else. */
  lemma SplitAtSlash(level: bytes, rest: bytes)
    requires 0x2F !in level
    ensures Levels(level) == [level] && Levels(level + [0x2F] + rest) == [level] + Levels(rest)
  {
    LevelsOfOne(level);
    LevelsOfPrefix(level, rest);
  }

  // ---- Laws ----

  lemma {:induction false} LevelsReflexive(f: seq<bytes>)
    ensures MatchLevels(f, f)
  {
    if f != [] {
      LevelsReflexive(f[1..]);
    }
  }

  lemma {:induction false} LevelsTransitive(t: seq<bytes>, f: seq<bytes>, g: seq<bytes>)
    requires MatchLevels(t, f) && MatchLevels(f, g)
    ensures MatchLevels(t, g)
    decreases |g|
  {
    if g != [] && g[0] != HASH {
      LevelsTransitive(t[1..], f[1..], g[1..]);
    }
  }

  /** A filter matches itself exactly when it does not start with `$`. */
  lemma ReflexiveIff(f: bytes)
    ensures Matches(f, f) <==> !Hidden(f)
  {
    LevelsReflexive(Levels(f));
  }

  /** Matching a filter against a filter is sound: what the narrower one matches, the wider one matches. */
  lemma Transitive(t: bytes, f: bytes, g: bytes)
    requires Matches(t, f) && Matches(f, g)
    ensures Matches(t, g)
  {
    LevelsTransitive(Levels(t), Levels(f), Levels(g));
  }

  lemma {:induction false} LevelsAntisymmetric(f: seq<bytes>, g: seq<bytes>)
    requires ValidLevels(f) && ValidLevels(g) && MatchLevels(f, g) && MatchLevels(g, f)
    ensures f == g
    decreases |f|
  {
    if f != [] && g != [] {
      if f[0] == HASH || g[0] == HASH {
        assert f == [HASH] && g == [HASH];
      } else {
        TailIsValid(f);
        TailIsValid(g);
        LevelsAntisymmetric(f[1..], g[1..]);
      }
    }
  }

  lemma TailIsValid(levels: seq<bytes>)
    requires ValidLevels(levels) && levels != []
    ensures ValidLevels(levels[1..])
  {
    assert forall i :: 0 <= i < |levels| - 1 ==> levels[1..][i] == levels[i + 1];
  }

  /** On valid filters the relation is a partial order. */
  lemma Antisymmetric(f: bytes, g: bytes)
    requires ValidLevels(Levels(f)) && ValidLevels(Levels(g)) && Matches(f, g) && Matches(g, f)
    ensures f == g
  {
    LevelsAntisymmetric(Levels(f), Levels(g));
    JoinOfLevels(f);
    JoinOfLevels(g);
  }

  // ---- Levels of text are text ----

  lemma {:induction false} LevelsBehind(front: bytes, s: bytes)
    requires SLASH !in front
    ensures Levels(front + s) == [front + Levels(s)[0]] + Levels(s)[1..]
    decreases |front|
  {
    if front == [] {
      assert front + s == s && front + Levels(s)[0] == Levels(s)[0];
      assert [Levels(s)[0]] + Levels(s)[1..] == Levels(s);
    } else {
      assert front[0] in front && (front + s)[1..] == front[1..] + s;
      LevelsBehind(front[1..], s);
      assert [front[0]] + (front[1..] + Levels(s)[0]) == front + Levels(s)[0];
    }
  }

  ghost predicate AllText(levels: seq<bytes>) {
    forall i :: 0 <= i < |levels| ==> Valid(levels[i])
  }

  /** The separator is never part of a longer character. */
  lemma {:induction false} LevelsAreText(s: bytes)
    requires Valid(s)
    ensures AllText(Levels(s))
    decreases |s|
  {
    if s != [] {
      assert ValidFrom(s);
      if s[0] == SLASH {
        LevelsAreText(s[1..]);
      } else {
        var n := if s[0] < 0x80 then 1 else if s[0] < 0xE0 then 2 else if s[0] < 0xF0 then 3 else 4;
        FirstCharacter(s, n);
        LevelsBehind(s[..n], s[n..]);
        assert s == s[..n] + s[n..];
        LevelsAreText(s[n..]);
        ValidConcat(s[..n], Levels(s[n..])[0]);
      }
    }
  }

  lemma FirstCharacter(s: bytes, n: nat)
    requires s != [] && ValidFrom(s) && s[0] != SLASH
    requires n == if s[0] < 0x80 then 1 else if s[0] < 0xE0 then 2 else if s[0] < 0xF0 then 3 else 4
    ensures n <= |s| && Valid(s[..n]) && Valid(s[n..]) && SLASH !in s[..n]
  {
    var front := s[..n];
    assert front[n..] == [] && front[0] == s[0];
    assert ValidFrom(front);
  }

  lemma {:induction false} JoinedText(levels: seq<bytes>)
    requires AllText(levels)
    ensures Valid(JoinLevels(levels))
  {
    if |levels| > 1 {
      JoinedText(levels[1..]);
      assert ValidFrom([SLASH]);
      ValidConcat(levels[0], [SLASH]);
      ValidConcat(levels[0] + [SLASH], JoinLevels(levels[1..]));
    }
  }

  lemma {:induction false} LettersAreText(n: nat)
    ensures Valid(Letters(n))
  {
    if n > 0 {
      LettersAreText(n - 1);
      assert Letters(n)[1..] == Letters(n - 1);
      assert ValidFrom(Letters(n));
    }
  }

  lemma {:induction false} InstanceIsText(f: seq<bytes>, novel: bytes)
    requires AllText(f) && Valid(novel)
    ensures AllText(Instance(f, novel))
  {
    if f != [] && f[0] != HASH {
      assert forall i :: 0 <= i < |f| - 1 ==> f[1..][i] == f[i + 1];
      InstanceIsText(f[1..], novel);
    }
  }

  // ---- Completeness of filter-against-filter matching ----

  predicate Plain(levels: seq<bytes>) {
    forall i :: 0 <= i < |levels| ==> HASH_SIGN !in levels[i] && PLUS_SIGN !in levels[i] && SLASH !in levels[i]
  }

  /** A level no longer than the others cannot be this one: `n` letters. */
  function Letters(n: nat): (s: bytes)
    ensures |s| == n && (forall i :: 0 <= i < n ==> s[i] == 0x61)
  {
    if n == 0 then [] else [0x61] + Letters(n - 1)
  }

  function TotalLength(levels: seq<bytes>): nat {
    if levels == [] then 0 else |levels[0]| + TotalLength(levels[1..])
  }

  /** A topic that matches `f`: every `+` becomes `novel`, and `#` becomes nothing. */
  function Instance(f: seq<bytes>, novel: bytes): seq<bytes> {
    if f == [] || f[0] == HASH then []
    else [if f[0] == PLUS then novel else f[0]] + Instance(f[1..], novel)
  }

  predicate NovelFor(novel: bytes, g: seq<bytes>) {
    |novel| > TotalLength(g) && HASH_SIGN !in novel && PLUS_SIGN !in novel && SLASH !in novel
  }

  lemma {:induction false} InstanceMatches(f: seq<bytes>, novel: bytes)
    requires ValidLevels(f) && NoSlash(f) && NovelFor(novel, [])
    ensures MatchLevels(Instance(f, novel), f) && Plain(Instance(f, novel))
  {
    if f != [] && f[0] != HASH {
      TailIsValid(f);
      InstanceMatches(f[1..], novel);
      assert HASH_SIGN !in f[0];
      assert f[0] != PLUS ==> PLUS_SIGN !in f[0];
    }
  }

  /** A trailing `#` also takes any further level. */
  lemma {:induction false} LongerInstanceMatches(f: seq<bytes>, novel: bytes)
    requires ValidLevels(f) && NoSlash(f) && NovelFor(novel, []) && f != [] && f[|f| - 1] == HASH
    ensures MatchLevels(Instance(f, novel) + [novel], f) && Plain(Instance(f, novel) + [novel])
  {
    InstanceMatches(f, novel);
    if f[0] != HASH {
      TailIsValid(f);
      LongerInstanceMatches(f[1..], novel);
      assert (Instance(f, novel) + [novel])[1..] == Instance(f[1..], novel) + [novel];
    }
  }

  /**
   If `g` matches the instance of `f` (and, when `f` ends in `#`, also the instance one level longer), then `g` matches
   `f` itself.
   */
  lemma {:induction false} InstanceDecides(f: seq<bytes>, g: seq<bytes>, novel: bytes)
    requires ValidLevels(f) && ValidLevels(g) && NovelFor(novel, g)
    requires MatchLevels(Instance(f, novel), g)
    requires f != [] && f[|f| - 1] == HASH ==> MatchLevels(Instance(f, novel) + [novel], g)
    ensures MatchLevels(f, g)
    decreases |g|
  {
    if g != [] && g[0] != HASH {
      if f[0] != HASH {
        TailIsValid(f);
        TailIsValid(g);
        var more := Instance(f, novel) + [novel];
        assert more[1..] == Instance(f[1..], novel) + [novel];
        InstanceDecides(f[1..], g[1..], novel);
      }
    }
  }

  lemma {:induction false} PlainJoin(levels: seq<bytes>)
    requires Plain(levels)
    ensures ValidTopic(JoinLevels(levels)) && NoSlash(levels)
  {
    if |levels| > 1 {
      assert forall i :: 0 <= i < |levels| - 1 ==> levels[1..][i] == levels[i + 1];
      PlainJoin(levels[1..]);
    }
  }

  lemma HiddenByFirstLevel(s: bytes)
    ensures Hidden(s) <==> Levels(s)[0] != [] && Levels(s)[0][0] == DOLLAR
  {
  }

  lemma {:induction false} LevelsHaveNoSlash(s: bytes)
    ensures NoSlash(Levels(s))
  {
    if s != [] {
      LevelsHaveNoSlash(s[1..]);
    }
  }

  /** `g` matches every topic, that is every string without wildcards, that `f` matches. */
  ghost predicate Covers(g: str, f: str) {
    forall t: str :: ValidTopic(t) && Matches(t, f) ==> Matches(t, g)
  }

  /** A list of levels as a topic, and what covering says about it. */
  lemma CoveredInstance(f: str, g: str, t: seq<bytes>)
    requires Covers(g, f) && t != [] && Plain(t) && AllText(t) && (t[0] != [] ==> t[0][0] != DOLLAR)
    requires MatchLevels(t, Levels(f))
    ensures MatchLevels(t, Levels(g))
  {
    PlainJoin(t);
    LevelsOfJoin(t);
    JoinedText(t);
    HiddenByFirstLevel(JoinLevels(t));
    assert Matches(JoinLevels(t), f);
  }

  lemma CoverOfEverything(f: str, g: str)
    requires f == HASH && Covers(g, f) && ValidLevels(Levels(g))
    ensures Matches(HASH, g) || Levels(g) == [PLUS, HASH]
  {
    var h := Levels(g);
    var novel := Letters(TotalLength(h) + 1);
    NotLonger(h, novel);
    LettersAreText(|novel|);
    LevelsOfOne(HASH);
    var one: seq<bytes> := [novel];
    var two: seq<bytes> := [novel, novel];
    CoveredInstance(f, g, one);
    CoveredInstance(f, g, two);
    assert one[1..] == [] && two[1..] == one;
    if h[0] != HASH && h[0] == PLUS {
      assert h[1..] != [];
      assert h[1] == HASH;
    }
  }

  lemma {:induction false} NotLonger(levels: seq<bytes>, novel: bytes)
    requires |novel| > TotalLength(levels)
    ensures novel !in levels
  {
    if levels != [] {
      NotLonger(levels[1..], novel);
    }
  }

  lemma CoverIsMatch(f: str, g: str)
    requires ValidLevels(Levels(f)) && ValidLevels(Levels(g)) && Covers(g, f) && !Hidden(f) && Levels(f) != [HASH]
    ensures Matches(f, g)
  {
    var h := Levels(f);
    var novel := Letters(TotalLength(Levels(g)) + 1);
    var t := Instance(h, novel);
    HiddenByFirstLevel(f);
    LevelsHaveNoSlash(f);
    LevelsAreText(f);
    LettersAreText(|novel|);
    InstanceIsText(h, novel);
    InstanceMatches(h, novel);
    assert h[0] == HASH ==> h == [HASH];
    CoveredInstance(f, g, t);
    if h[|h| - 1] == HASH {
      LongerInstanceMatches(h, novel);
      CoveredInstance(f, g, t + [novel]);
    }
    InstanceDecides(h, Levels(g), novel);
  }

  /**
   Matching a filter against a filter decides coverage of topics, up to two cases: filters that start with `$` cover
   nothing and are never matched, and `+/#` covers everything `#` does, which level by level comparison does not see.
   */
  lemma SubsumptionIff(f: str, g: str)
    requires ValidLevels(Levels(f)) && ValidLevels(Levels(g))
    ensures Covers(g, f) <==> Matches(f, g) || Hidden(f) || (f == HASH && Levels(g) == [PLUS, HASH])
  {
    if Matches(f, g) || Hidden(f) || (f == HASH && Levels(g) == [PLUS, HASH]) {
      forall t: str | ValidTopic(t) && Matches(t, f)
        ensures Matches(t, g)
      {
        if Matches(f, g) {
          Transitive(t, f, g);
        } else if Hidden(f) {
          HiddenByFirstLevel(f);
          HiddenByFirstLevel(t);
        } else {
          PlainTopicLevel(t);
        }
      }
    }
    if Covers(g, f) && !Hidden(f) {
      if Levels(f) == [HASH] {
        JoinOfLevels(f);
        CoverOfEverything(f, g);
      } else {
        CoverIsMatch(f, g);
      }
    }
  }

  lemma {:induction false} PlainTopicLevel(t: bytes)
    requires ValidTopic(t)
    ensures HASH_SIGN !in Levels(t)[0]
  {
    if t != [] {
      PlainTopicLevel(t[1..]);
    }
  }
}
