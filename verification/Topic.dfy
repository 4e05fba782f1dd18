/** Topic matching as the exchange does it (section 3.1.3.3 of the AMQP 0-9-1 specification): `*`
    stands for exactly one word and `#` for zero or more. */
module Topic {

  type Word = string

  const STAR := "*"
  const HASH := "#"

  /** A dotted string as its words. */
  function Words(s: string): (ws: seq<Word>)
    ensures ws != []
  {
    if s == "" then [""]
    else
      var rest := Words(s[1..]);
      if s[0] == '.' then [""] + rest else [[s[0]] + rest[0]] + rest[1..]
  }

  /** The matcher: a `#` tries to stand for nothing, then for one word more. */
  predicate Matches(pattern: seq<Word>, key: seq<Word>)
    decreases |pattern| + |key|
  {
    if pattern == [] then key == []
    else if pattern[0] == HASH then
      Matches(pattern[1..], key) || (key != [] && Matches(pattern, key[1..]))
    else key != [] && (pattern[0] == STAR || pattern[0] == key[0]) && Matches(pattern[1..], key[1..])
  }

  predicate TopicMatches(pattern: string, key: string) {
    Matches(Words(pattern), Words(key))
  }

  // ---------- what matching means ----------

  /** The words that one word of the pattern may stand for. */
  predicate Stands(p: Word, words: seq<Word>) {
    if p == HASH then true
    else |words| == 1 && (p == STAR || p == words[0])
  }

  function Joined(pieces: seq<seq<Word>>): seq<Word> {
    if pieces == [] then [] else pieces[0] + Joined(pieces[1..])
  }

  /** The key is cut into one piece per word of the pattern, each piece allowed by its word. */
  ghost predicate Cut(pattern: seq<Word>, key: seq<Word>, pieces: seq<seq<Word>>) {
    && |pieces| == |pattern| && Joined(pieces) == key
    && forall i :: 0 <= i < |pattern| ==> Stands(pattern[i], pieces[i])
  }

  /** The backtracking matcher accepts a key exactly when the key can be cut that way. */
  lemma MatchesIffCut(pattern: seq<Word>, key: seq<Word>)
    ensures Matches(pattern, key) <==> exists pieces :: Cut(pattern, key, pieces)
  {
    if Matches(pattern, key) {
      var pieces := Pieces(pattern, key);
      assert Cut(pattern, key, pieces);
    }
    if pieces :| Cut(pattern, key, pieces) {
      CutMatches(pattern, key, pieces);
    }
  }

  lemma {:induction false} Pieces(pattern: seq<Word>, key: seq<Word>) returns (pieces: seq<seq<Word>>)
    requires Matches(pattern, key)
    ensures Cut(pattern, key, pieces)
    decreases |pattern| + |key|
  {
    if pattern == [] { return []; }
    if pattern[0] == HASH && !Matches(pattern[1..], key) {
      var rest := Pieces(pattern, key[1..]);
      pieces := [[key[0]] + rest[0]] + rest[1..];
      assert Joined(pieces) == [key[0]] + (rest[0] + Joined(rest[1..]));
    } else {
      var first := if pattern[0] == HASH then [] else [key[0]];
      var rest := Pieces(pattern[1..], key[|first|..]);
      pieces := [first] + rest;
      assert pieces[1..] == rest;
    }
  }

  lemma {:induction false} CutMatches(pattern: seq<Word>, key: seq<Word>, pieces: seq<seq<Word>>)
    requires Cut(pattern, key, pieces)
    ensures Matches(pattern, key)
    decreases |pattern| + |key|
  {
    if pattern != [] {
      assert Stands(pattern[0], pieces[0]);
      if pattern[0] == HASH && pieces[0] != [] {
        var shorter := [pieces[0][1..]] + pieces[1..];
        assert shorter[1..] == pieces[1..] && Joined(shorter) == key[1..];
        CutMatches(pattern, key[1..], shorter);
      } else {
        assert key[|pieces[0]|..] == Joined(pieces[1..]);
        CutMatches(pattern[1..], key[|pieces[0]|..], pieces[1..]);
      }
    }
  }

  function Singles(words: seq<Word>): (pieces: seq<seq<Word>>)
    ensures |pieces| == |words| && forall i :: 0 <= i < |words| ==> pieces[i] == [words[i]]
  {
    seq(|words|, i requires 0 <= i < |words| => [words[i]])
  }

  lemma {:induction false} JoinedSingles(words: seq<Word>)
    ensures Joined(Singles(words)) == words
  {
    if words != [] {
      assert Singles(words)[1..] == Singles(words[1..]);
      JoinedSingles(words[1..]);
    }
  }

  /** Every binding pattern, with any mix of wildcards, matches itself used as a routing key. */
  lemma PatternMatchesItself(pattern: string)
    ensures TopicMatches(pattern, pattern)
  {
    var words := Words(pattern);
    JoinedSingles(words);
    CutMatches(words, words, Singles(words));
  }

  lemma {:induction false} HashMatchesAll(key: seq<Word>)
    ensures Matches([HASH], key)
  {
    if key != [] { HashMatchesAll(key[1..]); }
  }

  /** The binding of this service's consumers, `#.service.#`, takes exactly the routing keys that
      have the service's name among their words. */
  lemma {:induction false} HashWordHash(word: Word, key: seq<Word>)
    requires word != STAR && word != HASH
    ensures Matches([HASH, word, HASH], key) <==> word in key
  {
    var pattern := [HASH, word, HASH];
    assert pattern[1..] == [word, HASH] && [word, HASH][1..] == [HASH];
    if key != [] {
      HashMatchesAll(key[1..]);
      HashWordHash(word, key[1..]);
      assert key == [key[0]] + key[1..];
    }
  }

  // ---------- what a dotted string's words are ----------

  function JoinDots(ws: seq<Word>): string
    requires ws != []
  {
    if |ws| == 1 then ws[0] else ws[0] + "." + JoinDots(ws[1..])
  }

  /** The words are the stretches between the dots: there is no dot in them, and with dots between
      them they are the string again. */
  lemma {:induction false} WordsMeans(s: string)
    ensures JoinDots(Words(s)) == s
    ensures forall k :: 0 <= k < |Words(s)| ==> '.' !in Words(s)[k]
  {
    if s != "" {
      WordsMeans(s[1..]);
      var rest := Words(s[1..]);
      if s[0] == '.' {
        assert Words(s)[1..] == rest;
        assert "" + "." + JoinDots(rest) == s;
      } else {
        JoinLonger(s[0], rest);
        assert s == [s[0]] + s[1..];
      }
    }
  }

  lemma JoinLonger(c: char, ws: seq<Word>)
    requires ws != []
    ensures JoinDots([[c] + ws[0]] + ws[1..]) == [c] + JoinDots(ws)
  {
    var longer := [[c] + ws[0]] + ws[1..];
    assert longer[1..] == ws[1..];
    if |ws| > 1 { assert [c] + (ws[0] + "." + JoinDots(ws[1..])) == ([c] + ws[0]) + "." + JoinDots(ws[1..]); }
  }

  /** And nothing else is. */
  lemma {:induction false} WordsOnly(ws: seq<Word>)
    requires ws != [] && forall k :: 0 <= k < |ws| ==> '.' !in ws[k]
    ensures Words(JoinDots(ws)) == ws
    decreases |ws|, |ws[0]|
  {
    var s := JoinDots(ws);
    if ws[0] == "" {
      if |ws| > 1 {
        WordsOnly(ws[1..]);
        assert s == "" + "." + JoinDots(ws[1..]) && s[1..] == JoinDots(ws[1..]);
      }
    } else {
      var shorter := [ws[0][1..]] + ws[1..];
      JoinLonger(ws[0][0], shorter);
      assert [ws[0][0]] + shorter[0] == ws[0] && [ws[0]] + shorter[1..] == ws;
      WordsOnly(shorter);
      assert s[1..] == JoinDots(shorter) && s[0] == ws[0][0];
      assert ws[0][0] in ws[0];
    }
  }

  /** A word at position i of a string, with a dot or an end on either side. */
  predicate StandsAt(s: string, word: Word, i: nat) {
    && i + |word| <= |s| && s[i..i + |word|] == word
    && (i == 0 || s[i - 1] == '.') && (i + |word| == |s| || s[i + |word|] == '.')
  }

  lemma StandsLater(s: string, word: Word, i: nat)
    requires s != "" && StandsAt(s[1..], word, i) && (i == 0 ==> s[0] == '.')
    ensures StandsAt(s, word, i + 1)
  {
    assert s[i + 1..i + 1 + |word|] == s[1..][i..i + |word|];
  }

  lemma {:induction false} WordStands(s: string, k: nat) returns (i: nat)
    requires k < |Words(s)|
    ensures StandsAt(s, Words(s)[k], i) && (i == 0 <==> k == 0)
  {
    i := 0;
    if s != "" {
      var rest, word := Words(s[1..]), Words(s)[k];
      if s[0] == '.' && k > 0 {
        i := WordStands(s[1..], k - 1);
        StandsLater(s, word, i);
        i := i + 1;
      } else if s[0] != '.' {
        i := WordStands(s[1..], k);
        if k == 0 {
          assert s[0..|word|] == [s[0]] + s[1..][0..|rest[0]|];
        } else {
          StandsLater(s, word, i);
          i := i + 1;
        }
      }
    }
  }

  lemma {:induction false} StandingIsWord(s: string, word: Word, i: nat) returns (k: nat)
    requires StandsAt(s, word, i) && '.' !in word
    ensures k < |Words(s)| && Words(s)[k] == word && (i == 0 <==> k == 0)
    decreases |s|
  {
    k := 0;
    if s != "" {
      if i > 0 {
        assert s[1..][i - 1..i - 1 + |word|] == s[i..i + |word|];
        k := StandingIsWord(s[1..], word, i - 1);
        if s[0] == '.' { k := k + 1; }
      } else if word != "" {
        assert s[0] == word[0] && word[0] in word;
        assert s[1..][0..|word| - 1] == word[1..] by { assert s[0..|word|][1..] == s[1..|word|]; }
        k := StandingIsWord(s[1..], word[1..], 0);
      }
    }
  }

  /** A star takes exactly the keys of one word; a pattern without wildcards, exactly itself. */
  lemma StarOrPlain(pattern: string, key: string)
    ensures TopicMatches("*", key) <==> '.' !in key
    ensures "*" !in Words(pattern) && "#" !in Words(pattern) ==> (TopicMatches(pattern, key) <==> pattern == key)
  {
    assert JoinDots(["*"]) == "*" && JoinDots([key]) == key;
    WordsOnly(["*"]);
    WordsMeans(key);
    if '.' !in key { WordsOnly([key]); }
    OneStar(Words(key));
    if STAR !in Words(pattern) && HASH !in Words(pattern) {
      PlainMatches(Words(pattern), Words(key));
      WordsMeans(pattern);
    }
  }

  lemma OneStar(key: seq<Word>)
    ensures Matches(["*"], key) <==> |key| == 1
  {
    assert ["*"][1..] == [];
  }

  lemma {:induction false} PlainMatches(pattern: seq<Word>, key: seq<Word>)
    requires STAR !in pattern && HASH !in pattern
    ensures Matches(pattern, key) <==> pattern == key
    decreases |pattern|
  {
    if pattern != [] && key != [] {
      PlainMatches(pattern[1..], key[1..]);
      assert pattern == [pattern[0]] + pattern[1..] && key == [key[0]] + key[1..];
    }
  }

  /** The binding pattern `#.service.#` takes exactly the routing keys in which the service's name
      stands alone between dots. */
  lemma ServiceBinding(service: string, key: string)
    requires '.' !in service && service != "*" && service != "#"
    ensures TopicMatches("#." + service + ".#", key) <==> exists i :: 0 <= i <= |key| && StandsAt(key, service, i)
  {
    BindingWords(service);
    HashWordHash(service, Words(key));
    if service in Words(key) {
      var k :| 0 <= k < |Words(key)| && Words(key)[k] == service;
      var i := WordStands(key, k);
    }
    if i :| 0 <= i <= |key| && StandsAt(key, service, i) {
      var k := StandingIsWord(key, service, i);
    }
  }

  lemma BindingWords(service: string)
    requires '.' !in service
    ensures Words("#." + service + ".#") == ["#", service, "#"]
  {
    var ws := ["#", service, "#"];
    WordsOnly(ws);
    assert ws[1..] == [service, "#"] && ws[1..][1..] == ["#"];
    var rest := service + "." + "#";
    assert JoinDots(ws[1..]) == rest == service + ".#" && JoinDots(ws) == "#" + "." + rest;
    assert "#" + "." + rest == "#." + rest;
    assert "#." + service + ".#" == "#." + (service + ".#");
  }
}
