/** The topic matcher of internal/engine/exchange/exchange.go and the filter matcher of internal/protocol/mqtt/topics.go. */
module TopicMatch {
  type Words = seq<string>

  // strings.Split with a one-character separator.
  function Split(s: string, sep: char): (w: Words)
    ensures w != []
  {
    if s == [] then [[]]
    else
      var w := Split(s[..|s| - 1], sep);
      if s[|s| - 1] == sep then w + [[]] else w[..|w| - 1] + [w[|w| - 1] + [s[|s| - 1]]]
  }

  function Join(w: Words, sep: char): string {
    if w == [] then [] else if |w| == 1 then w[0] else Join(w[..|w| - 1], sep) + [sep] + w[|w| - 1]
  }

  // Splitting undoes joining, and leaves no separator inside a word.
  lemma {:induction false} SplitJoins(s: string, sep: char)
    ensures Join(Split(s, sep), sep) == s && forall i :: 0 <= i < |Split(s, sep)| ==> sep !in Split(s, sep)[i]
  {
    if s != [] {
      var n := |s| - 1;
      SplitJoins(s[..n], sep);
      var before, w := Split(s[..n], sep), Split(s, sep);
      assert s == s[..n] + [s[n]];
      if s[n] == sep {
        assert w[..|before|] == before;
      } else {
        assert w[..|w| - 1] == before[..|before| - 1];
      }
    }
  }

  function Flat(pieces: seq<Words>): Words {
    if pieces == [] then [] else pieces[0] + Flat(pieces[1..])
  }

  // What one word of a pattern stands for: '#' for any number of words, '*' for one, any other word for itself.
  predicate StandsFor(p: string, words: Words) {
    if p == "#" then true else |words| == 1 && (p == "*" || p == words[0])
  }

  // The meaning of a pattern: the key can be cut into pieces, one for each word of the pattern, that it stands for.
  ghost predicate Means(pattern: Words, key: Words) {
    exists pieces: seq<Words> :: Pieces(pattern, key, pieces)
  }

  predicate Pieces(pattern: Words, key: Words, pieces: seq<Words>) {
    |pieces| == |pattern| && Flat(pieces) == key && forall i :: 0 <= i < |pattern| ==> StandsFor(pattern[i], pieces[i])
  }

  // The meaning, word by word.
  predicate Match(p: Words, k: Words)
    decreases |p|, |k|
  {
    if p == [] then k == []
    else if p[0] == "#" then Match(p[1..], k) || (k != [] && Match(p, k[1..]))
    else k != [] && (p[0] == "*" || p[0] == k[0]) && Match(p[1..], k[1..])
  }

  lemma {:induction false} MatchMeans(p: Words, k: Words)
    ensures Match(p, k) <==> Means(p, k)
    decreases |p|, |k|
  {
    if p == [] {
      assert Means(p, k) ==> k == [];
      if k == [] { assert Pieces(p, k, []); }
    } else {
      if Match(p, k) {
        if p[0] == "#" && Match(p[1..], k) {
          MatchMeans(p[1..], k);
          var rest: seq<Words> :| Pieces(p[1..], k, rest);
          Prepend(p, [], rest);
          assert [] + Flat(rest) == k;
        } else if p[0] == "#" {
          MatchMeans(p, k[1..]);
          var pieces: seq<Words> :| Pieces(p, k[1..], pieces);
          var longer := [k[0]] + pieces[0];
          Tail(p, k[1..], pieces);
          Prepend(p, longer, pieces[1..]);
          assert longer + Flat(pieces[1..]) == [k[0]] + k[1..] == k;
        } else {
          MatchMeans(p[1..], k[1..]);
          var rest: seq<Words> :| Pieces(p[1..], k[1..], rest);
          Prepend(p, [k[0]], rest);
          assert [k[0]] + Flat(rest) == k;
        }
      }
      if pieces: seq<Words> :| Pieces(p, k, pieces) { MatchOf(p, k, pieces); }
    }
  }

  lemma Prepend(p: Words, piece: Words, rest: seq<Words>)
    requires p != [] && StandsFor(p[0], piece) && Pieces(p[1..], Flat(rest), rest)
    ensures Pieces(p, piece + Flat(rest), [piece] + rest)
  {
    var pieces := [piece] + rest;
    assert pieces[1..] == rest;
    forall i | 0 <= i < |p| ensures StandsFor(p[i], pieces[i]) {
      if i > 0 { assert p[i] == p[1..][i - 1] && pieces[i] == rest[i - 1]; }
    }
  }

  // The rest of a cut fits the rest of the pattern.
  lemma Tail(p: Words, k: Words, pieces: seq<Words>)
    requires p != [] && Pieces(p, k, pieces)
    ensures Pieces(p[1..], Flat(pieces[1..]), pieces[1..])
  {
    forall i | 0 <= i < |p| - 1 ensures StandsFor(p[1..][i], pieces[1..][i]) {
      assert p[1..][i] == p[i + 1] && pieces[1..][i] == pieces[i + 1];
    }
  }

  lemma {:induction false} MatchOf(p: Words, k: Words, pieces: seq<Words>)
    requires Pieces(p, k, pieces)
    ensures Match(p, k)
    decreases |p|
  {
    if p != [] {
      var rest := pieces[1..];
      Tail(p, k, pieces);
      MatchOf(p[1..], Flat(rest), rest);
      if p[0] == "#" {
        HashTakes(p, pieces[0], Flat(rest));
      } else {
        assert k == pieces[0] + Flat(rest) && k[1..] == Flat(rest);
      }
    }
  }

  // '#' takes any words in front of what the rest of the pattern matches.
  lemma {:induction false} HashTakes(p: Words, front: Words, k: Words)
    requires p != [] && p[0] == "#" && Match(p[1..], k)
    ensures Match(p, front + k)
    decreases |front|
  {
    if front == [] {
      assert front + k == k;
    } else {
      HashTakes(p, front[1..], k);
      assert (front + k)[1..] == front[1..] + k;
    }
  }

  // '#' matches exactly if the rest of the pattern matches from some place on.
  lemma {:induction false} HashSplit(p: Words, k: Words, j: nat)
    requires p != [] && p[0] == "#" && j <= |k|
    ensures Match(p[1..], k[j..]) ==> Match(p, k)
    ensures Match(p, k) && (forall i :: 0 <= i < j ==> !Match(p[1..], k[i..])) ==> Match(p, k[j..])
    decreases j
  {
    if Match(p[1..], k[j..]) {
      HashTakes(p, k[..j], k[j..]);
      assert k[..j] + k[j..] == k;
    }
    if j == 0 {
      assert k[0..] == k;
    } else {
      HashSplit(p, k, j - 1);
      assert k[j - 1..][1..] == k[j..];
    }
  }

  // --- the backtracking matcher ---

  method MatchParts(pattern: Words, key: Words, pi0: nat, ki0: nat) returns (r: bool)
    requires pi0 <= |pattern| && ki0 <= |key|
    ensures r <==> Match(pattern[pi0..], key[ki0..])
    decreases |pattern| - pi0
  {
    var pi, ki := pi0, ki0;
    while pi < |pattern| && ki < |key|
      invariant pi0 <= pi <= |pattern| && ki0 <= ki <= |key|
      invariant Match(pattern[pi..], key[ki..]) == Match(pattern[pi0..], key[ki0..])
      decreases |pattern| - pi
    {
      assert pattern[pi..][1..] == pattern[pi + 1..] && key[ki..][1..] == key[ki + 1..];
      if pattern[pi] == "#" {
        r := MatchHash(pattern, key, pi, ki);
        return;
      } else if pattern[pi] == "*" {
        pi := pi + 1;
        ki := ki + 1;
      } else {
        if pattern[pi] != key[ki] { return false; }
        pi := pi + 1;
        ki := ki + 1;
      }
    }
    while pi < |pattern| && pattern[pi] == "#"
      invariant pi0 <= pi <= |pattern| && ki0 <= ki <= |key| && (pi < |pattern| ==> ki == |key|)
      invariant Match(pattern[pi..], key[ki..]) == Match(pattern[pi0..], key[ki0..])
    {
      assert pattern[pi..][1..] == pattern[pi + 1..];
      pi := pi + 1;
    }
    r := pi == |pattern| && ki == |key|;
  }

  // The inner loop of the '#' case.
  method MatchHash(pattern: Words, key: Words, pi: nat, ki: nat) returns (r: bool)
    requires pi < |pattern| && ki <= |key| && pattern[pi] == "#"
    ensures r <==> Match(pattern[pi..], key[ki..])
    decreases |pattern| - pi, 0
  {
    hide Match;
    var p, k := pattern[pi..], key[ki..];
    assert p[1..] == pattern[pi + 1..];
    var j := ki;
    while j <= |key|
      invariant ki <= j <= |key| + 1
      invariant forall i :: 0 <= i < j - ki ==> !Match(p[1..], k[i..])
    {
      assert k[j - ki..] == key[j..];
      var found := MatchParts(pattern, key, pi + 1, j);
      if found {
        HashSplit(p, k, j - ki);
        return true;
      }
      j := j + 1;
    }
    HashNowhere(p, k);
    return false;
  }

  lemma HashNowhere(p: Words, k: Words)
    requires p != [] && p[0] == "#" && forall i :: 0 <= i <= |k| ==> !Match(p[1..], k[i..])
    ensures !Match(p, k)
  {
    HashSplit(p, k, |k|);
    assert k[|k|..] == [];
  }

  lemma {:induction false} SelfMatch(p: Words)
    ensures Match(p, p)
  {
    if p != [] {
      SelfMatch(p[1..]);
      if p[0] == "#" {
        HashTakes(p, [p[0]], p[1..]);
        assert [p[0]] + p[1..] == p;
      }
    }
  }

  lemma {:induction false} HashAlone(k: Words)
    ensures Match(["#"], k)
  {
    HashTakes(["#"], k, []);
    assert k + [] == k;
  }

  lemma SplitHash()
    ensures Split("#", '.') == ["#"]
  {
    assert Split("", '.') == [""];
    assert "#"[..0] == "" && "" + "#" == "#";
  }

  // topicMatch decides the meaning; both of its shortcuts agree with it.
  method TopicMatches(pattern: string, key: string) returns (r: bool)
    ensures r <==> Means(Split(pattern, '.'), Split(key, '.'))
  {
    hide Match, Means, Split;
    var p, k := Split(pattern, '.'), Split(key, '.');
    MatchMeans(p, k);
    if pattern == "#" {
      SplitHash();
      HashAlone(k);
      return true;
    }
    if pattern == key {
      SelfMatch(p);
      return true;
    }
    r := MatchParts(p, k, 0, 0);
    assert p[0..] == p && k[0..] == k;
  }

  // --- MQTT filters ---

  predicate AllHash(f: Words) { forall i :: 0 <= i < |f| ==> f[i] == "#" }

  // FilterMatches, level by level.
  predicate FilterMatch(f: Words, t: Words) {
    if f == [] then t == []
    else if t == [] then AllHash(f)
    else f[0] == "#" || ((f[0] == "+" || f[0] == t[0]) && FilterMatch(f[1..], t[1..]))
  }

  method FilterMatches(filter: string, topic: string) returns (r: bool)
    ensures r <==> FilterMatch(Split(filter, '/'), Split(topic, '/'))
  {
    hide Split;
    var f, t := Split(filter, '/'), Split(topic, '/');
    var fi, ti := 0, 0;
    assert f[0..] == f && t[0..] == t;
    while fi < |f|
      invariant 0 <= fi <= |f| && 0 <= ti <= |t|
      invariant FilterMatch(f[fi..], t[ti..]) == FilterMatch(f, t)
    {
      if ti >= |t| {
        ghost var from := fi;
        while fi < |f|
          invariant from <= fi <= |f| && forall i :: from <= i < fi ==> f[i] == "#"
        {
          if f[fi] != "#" {
            assert f[from..][fi - from] != "#";
            return false;
          }
          fi := fi + 1;
        }
        return true;
      }
      assert f[fi..][1..] == f[fi + 1..] && t[ti..][1..] == t[ti + 1..];
      if f[fi] == "#" { return true; }
      if f[fi] != "+" && f[fi] != t[ti] { return false; }
      fi := fi + 1;
      ti := ti + 1;
    }
    r := ti == |t|;
  }

  // The same filter in the words of a topic exchange.
  function Translated(f: Words): (p: Words)
    ensures |p| == |f|
  {
    if f == [] then [] else [if f[0] == "+" then "*" else f[0]] + Translated(f[1..])
  }

  // Words of a filter other than '#'.
  function Others(f: Words): Words {
    if f == [] then [] else (if f[0] == "#" then [] else [f[0]]) + Others(f[1..])
  }

  predicate Wild(w: string) { w == "+" || w == "*" }

  // No level called '*' before the first '#'; and from there on nothing but '#' with at most one wildcard level among them.
  predicate Portable(f: Words) {
    f == [] ||
    if f[0] == "#" then Others(f) == [] || (|Others(f)| == 1 && Wild(Others(f)[0]))
    else f[0] != "*" && Portable(f[1..])
  }

  // A pattern needs as many words as it has words other than '#', and each of its plain words.
  lemma {:induction false} MatchNeeds(f: Words, t: Words)
    requires Match(Translated(f), t)
    ensures |t| >= |Others(f)| && forall i :: 0 <= i < |Others(f)| && !Wild(Others(f)[i]) ==> Others(f)[i] in t
    decreases |f|, |t|
  {
    if f != [] {
      var p := Translated(f);
      assert p[1..] == Translated(f[1..]);
      if f[0] == "#" {
        if Match(p[1..], t) { MatchNeeds(f[1..], t); } else { MatchNeeds(f, t[1..]); }
      } else {
        MatchNeeds(f[1..], t[1..]);
      }
    }
  }

  lemma {:induction false} AllHashMatches(f: Words, t: Words)
    requires Others(f) == [] && f != []
    ensures Match(Translated(f), t) && AllHash(f)
    decreases |f|
  {
    var p := Translated(f);
    assert p[1..] == Translated(f[1..]);
    assert f[0] == "#";
    if f[1..] == [] {
      HashTakes(p, t, []);
      assert t + [] == t;
    } else {
      AllHashMatches(f[1..], t);
      forall i | 0 <= i < |f| ensures f[i] == "#" { if i > 0 { assert f[i] == f[1..][i - 1]; } }
    }
  }

  // One wildcard level among '#' matches any one word,
  lemma {:induction false} OneWord(f: Words, w: string)
    requires |Others(f)| == 1 && Wild(Others(f)[0])
    ensures Match(Translated(f), [w])
    decreases |f|
  {
    var p := Translated(f);
    assert p[1..] == Translated(f[1..]);
    if f[0] == "#" {
      OneWord(f[1..], w);
    } else {
      assert Others(f) == [f[0]] + Others(f[1..]);
      if f[1..] != [] { AllHashMatches(f[1..], []); }
    }
  }

  // and with a '#' in front any number of words from one on.
  lemma WordsFromOne(f: Words, t: Words)
    requires f != [] && f[0] == "#" && |Others(f)| == 1 && Wild(Others(f)[0])
    ensures Match(Translated(f), t) <==> t != []
  {
    hide Match;
    var p, n := Translated(f), |t| - 1;
    if t != [] {
      OneWord(f[1..], t[n]);
      assert p[1..] == Translated(f[1..]);
      HashTakes(p, t[..n], [t[n]]);
      assert t[..n] + [t[n]] == t;
    }
    if Match(p, t) { MatchNeeds(f, t); }
  }

  lemma {:induction false} OthersOfAllHash(f: Words)
    requires AllHash(f)
    ensures Others(f) == []
  {
    if f != [] { OthersOfAllHash(f[1..]); }
  }

  // On a portable filter the two matchers agree about every topic.
  lemma {:induction false} PortableAgrees(f: Words, t: Words)
    requires Portable(f)
    ensures FilterMatch(f, t) <==> Match(Translated(f), t)
  {
    if f != [] {
      var p := Translated(f);
      assert p[1..] == Translated(f[1..]);
      if f[0] == "#" {
        if Others(f) == [] {
          AllHashMatches(f, t);
        } else {
          WordsFromOne(f, t);
          if AllHash(f) { OthersOfAllHash(f); }
        }
      } else if t != [] {
        PortableAgrees(f[1..], t[1..]);
      }
    }
  }

  // A topic that the pattern matches, with the word x for each wildcard.
  function Sample(f: Words): Words {
    if f == [] then [] else (if f[0] == "#" then [] else if Wild(f[0]) then ["x"] else [f[0]]) + Sample(f[1..])
  }

  lemma {:induction false} SampleMatches(f: Words)
    ensures Match(Translated(f), Sample(f))
  {
    if f != [] {
      SampleMatches(f[1..]);
      var p := Translated(f);
      assert p[1..] == Translated(f[1..]);
      if f[0] == "#" { assert Sample(f) == Sample(f[1..]); } else { assert Sample(f)[1..] == Sample(f[1..]); }
    }
  }

  predicate Plain(w: Words, sep: char) { forall i :: 0 <= i < |w| ==> sep !in w[i] }

  lemma {:induction false} SamplePlain(f: Words)
    requires Plain(f, '/')
    ensures Plain(Sample(f), '/')
  {
    if f != [] {
      assert Plain(f[1..], '/');
      SamplePlain(f[1..]);
    }
  }

  // On any other filter they disagree about some topic.
  lemma {:induction false} OthersDisagree(f: Words) returns (t: Words)
    requires !Portable(f) && Plain(f, '/')
    ensures t != [] && Plain(t, '/') && !(FilterMatch(f, t) <==> Match(Translated(f), t))
  {
    var p := Translated(f);
    assert p[1..] == Translated(f[1..]);
    if f[0] == "#" {
      var word := Others(f)[0];
      t := [if word == "x" then "y" else "x"];
      if Match(p, t) { MatchNeeds(f, t); }
      assert "x"[0] != "y"[0];
    } else if f[0] == "*" {
      t := Sample(f);
      SampleMatches(f);
      SamplePlain(f);
      assert t[0] == "x" && "x"[0] != "*"[0] && "+"[0] != "*"[0];
    } else {
      assert Plain(f[1..], '/');
      var rest := OthersDisagree(f[1..]);
      t := [if f[0] == "+" then "x" else f[0]] + rest;
      assert t[1..] == rest;
    }
  }

  // Joining and splitting again gives the same words, if none of them has a separator in it.
  lemma {:induction false} JoinSplits(w: Words, sep: char)
    requires w != [] && Plain(w, sep)
    ensures Split(Join(w, sep), sep) == w
  {
    hide Split;
    var n := |w| - 1;
    if n == 0 {
      SplitEmpty(sep);
      SplitWord("", w[0], sep, [""]);
      assert "" + w[0] == w[0] && [""][..0] == [] && "" + w[0] == w[0];
    } else {
      var front := Join(w[..n], sep);
      JoinSplits(w[..n], sep);
      SplitSeparator(front, sep);
      SplitWord(front + [sep], w[n], sep, w[..n] + [""]);
      assert front + [sep] + w[n] == Join(w, sep);
      assert (w[..n] + [""])[..n] == w[..n] && "" + w[n] == w[n] && w == w[..n] + [w[n]];
    }
  }

  lemma SplitEmpty(sep: char)
    ensures Split("", sep) == [""]
  {
  }

  lemma SplitSeparator(s: string, sep: char)
    ensures Split(s + [sep], sep) == Split(s, sep) + [""]
  {
    assert (s + [sep])[..|s|] == s;
  }

  // A word without separators goes to the last piece.
  lemma {:induction false} SplitWord(s: string, word: string, sep: char, w: Words)
    requires sep !in word && Split(s, sep) == w
    ensures Split(s + word, sep) == w[..|w| - 1] + [w[|w| - 1] + word]
  {
    var n := |word| - 1;
    if word == [] {
      assert s + word == s && w[|w| - 1] + word == w[|w| - 1];
    } else {
      SplitWord(s, word[..n], sep, w);
      assert (s + word)[..|s| + n] == s + word[..n];
      assert word == word[..n] + [word[n]];
      assert (w[|w| - 1] + word[..n]) + [word[n]] == w[|w| - 1] + word;
    }
  }

  lemma SplitPlain(s: string, sep: char)
    ensures Plain(Split(s, sep), sep)
  {
    SplitJoins(s, sep);
  }

  // What a filter matches under MQTT, and what the same filter with '*' for '+' means in a topic exchange.
  ghost predicate SameMeaning(filter: string, topic: string) {
    FilterMatch(Split(filter, '/'), Split(topic, '/')) <==> Means(Translated(Split(filter, '/')), Split(topic, '/'))
  }

  // The two agree about every topic if and only if the filter is portable.
  lemma MatchersAgree(filter: string)
    ensures Portable(Split(filter, '/')) <==> forall topic: string :: SameMeaning(filter, topic)
  {
    hide Portable, FilterMatch, Means, Match, Split, Join;
    var f := Split(filter, '/');
    if Portable(f) {
      forall topic: string ensures SameMeaning(filter, topic) {
        PortableAgrees(f, Split(topic, '/'));
        MatchMeans(Translated(f), Split(topic, '/'));
      }
    } else {
      SplitPlain(filter, '/');
      var t := OthersDisagree(f);
      MatchMeans(Translated(f), t);
      JoinSplits(t, '/');
      assert !SameMeaning(filter, Join(t, '/'));
    }
  }

  // Filters with '#' only in the last place and no level called '*' are portable.
  lemma {:induction false} UsualFilters(f: Words)
    requires forall i :: 0 <= i < |f| ==> f[i] != "*" && (f[i] == "#" ==> i == |f| - 1)
    ensures Portable(f)
  {
    if f != [] {
      if f[0] == "#" {
        assert |f| == 1;
        assert Others(f[1..]) == [];
      } else {
        UsualFilters(f[1..]);
      }
    }
  }

  // --- what a filter matches ---

  // The first j levels of the filter are no '#' and match those of the topic one by one.
  predicate Levels(f: Words, t: Words, j: nat) {
    j <= |f| && j <= |t| && forall i :: 0 <= i < j ==> f[i] != "#" && (f[i] == "+" || f[i] == t[i])
  }

  // Both end there; or there is a '#', and the topic goes on, or nothing but '#' follows.
  predicate EndsAt(f: Words, t: Words, j: nat) {
    j <= |f| && j <= |t| && if j == |f| then j == |t| else f[j] == "#" && (j < |t| || AllHash(f[j..]))
  }

  // A filter matches a topic if and only if they match level by level up to such a place.
  lemma {:induction false} FilterMeans(f: Words, t: Words)
    ensures FilterMatch(f, t) <==> exists j: nat :: Levels(f, t, j) && EndsAt(f, t, j)
  {
    if f == [] || t == [] || f[0] == "#" {
      if FilterMatch(f, t) {
        assert f[0..] == f;
        assert f != [] && t == [] ==> f[0] == "#";
        assert Levels(f, t, 0) && EndsAt(f, t, 0);
      }
      if j: nat :| Levels(f, t, j) && EndsAt(f, t, j) {
        LevelsStart(f, t, j);
        assert f[0..] == f;
      }
    } else {
      FilterMeans(f[1..], t[1..]);
      if FilterMatch(f, t) {
        var j: nat :| Levels(f[1..], t[1..], j) && EndsAt(f[1..], t[1..], j);
        FilterShift(f, t, j);
      }
      if j: nat :| Levels(f, t, j) && EndsAt(f, t, j) {
        if j > 0 { FilterShift(f, t, j - 1); }
      }
    }
  }

  lemma LevelsStart(f: Words, t: Words, j: nat)
    requires Levels(f, t, j)
    ensures j == 0 || f[0] != "#"
  {
  }

  lemma FilterShift(f: Words, t: Words, j: nat)
    requires f != [] && t != [] && f[0] != "#"
    ensures (Levels(f[1..], t[1..], j) && (f[0] == "+" || f[0] == t[0])) <==> Levels(f, t, j + 1)
    ensures EndsAt(f[1..], t[1..], j) <==> EndsAt(f, t, j + 1)
  {
    if j < |f| - 1 { assert f[1..][j..] == f[j + 1..]; }
    if Levels(f, t, j + 1) {
      assert f[0] == "+" || f[0] == t[0];
      forall i | 0 <= i < j ensures f[1..][i] != "#" && (f[1..][i] == "+" || f[1..][i] == t[1..][i]) { assert f[1..][i] == f[i + 1]; }
    }
    if Levels(f[1..], t[1..], j) && (f[0] == "+" || f[0] == t[0]) {
      forall i | 0 <= i < j + 1 ensures f[i] != "#" && (f[i] == "+" || f[i] == t[i]) { if i > 0 { assert f[i] == f[1..][i - 1]; } }
    }
  }
}
