/** Search keys compiled to a regular expression: escaped, alternated and anchored. */
module SearchPattern {
  import opened Wrappers

  datatype Operator = Anywhere | Starts | Ends | Equals

  // ---------- the compilation ----------

  /** What re.escape puts a backslash in front of. */
  const SPECIAL := "()[]{}?*+-|^$\\.&~# \t\n\r\U{0B}\U{0C}"

  function Escaped(c: char): string {
    if c in SPECIAL then ['\\', c] else [c]
  }

  function Escape(key: string): string {
    if key == "" then "" else Escaped(key[0]) + Escape(key[1..])
  }

  function Alternation(keys: seq<string>): string {
    if keys == [] then ""
    else if |keys| == 1 then Escape(keys[0])
    else Escape(keys[0]) + "|" + Alternation(keys[1..])
  }

  function Compile(op: Operator, keys: seq<string>): string {
    match op
    case Starts => "^" + Alternation(keys)
    case Ends => Alternation(keys) + "$"
    case Equals => "^" + Alternation(keys) + "$"
    case Anywhere => Alternation(keys)
  }

  // ---------- a reference parser and matcher ----------

  datatype Atom = Lit(c: char) | LineStart | LineEnd
  type Branch = seq<Atom>

  const META := ".*+?()[]{}"

  predicate Alphanumeric(c: char) {
    'a' <= c <= 'z' || 'A' <= c <= 'Z' || '0' <= c <= '9'
  }

  /** Puts atoms at the head of the first branch. */
  function Lead(atoms: Branch, bs: seq<Branch>): (led: seq<Branch>)
    requires bs != []
    ensures led != []
  {
    [atoms + bs[0]] + bs[1..]
  }

  /** An atom or a bar, and how many characters write it. */
  datatype Token = Unit(atom: Atom, width: nat) | Bar(width: nat)

  /** The token a pattern begins with. A backslash makes a literal of any character but a letter
      or a digit. */
  function FirstToken(p: string): (t: Option<Token>)
    requires p != ""
    ensures t.Some? ==> 1 <= t.value.width <= |p|
  {
    if p[0] == '|' then Some(Bar(1))
    else if p[0] == '\\' then
      if |p| == 1 || Alphanumeric(p[1]) then None else Some(Unit(Lit(p[1]), 2))
    else if p[0] == '^' then Some(Unit(LineStart, 1))
    else if p[0] == '$' then Some(Unit(LineEnd, 1))
    else if p[0] in META then None
    else Some(Unit(Lit(p[0]), 1))
  }

  function Extended(t: Token, bs: seq<Branch>): (more: seq<Branch>)
    requires bs != []
    ensures more != []
  {
    if t.Bar? then [[]] + bs else Lead([t.atom], bs)
  }

  /** The branches of a pattern, or None if it needs more than literals, anchors and alternation. */
  function Parse(p: string): (r: Option<seq<Branch>>)
    ensures r.Some? ==> r.value != []
  {
    if p == "" then Some([[]])
    else
      var t := FirstToken(p);
      if t.None? then None
      else
        var rest := Parse(p[t.value.width..]);
        if rest.None? then None else Some(Extended(t.value, rest.value))
  }

  predicate MatchFrom(b: Branch, text: string, i: nat)
    requires i <= |text|
  {
    if b == [] then true
    else
      match b[0]
      case Lit(c) => i < |text| && text[i] == c && MatchFrom(b[1..], text, i + 1)
      case LineStart => i == 0 && MatchFrom(b[1..], text, i)
      case LineEnd => i == |text| && MatchFrom(b[1..], text, i)
  }

  predicate BranchFound(b: Branch, text: string) {
    exists i :: 0 <= i <= |text| && MatchFrom(b, text, i)
  }

  /** A match somewhere in the text, of some branch. */
  predicate Found(pattern: string, text: string) {
    match Parse(pattern)
    case Some(bs) => exists b :: b in bs && BranchFound(b, text)
    case None => false
  }

  // ---------- parsing gives the keys back ----------

  function Lits(key: string): (b: Branch)
    ensures |b| == |key| && forall i :: 0 <= i < |key| ==> b[i] == Lit(key[i])
  {
    seq(|key|, i requires 0 <= i < |key| => Lit(key[i]))
  }

  predicate AtStart(op: Operator) { op == Starts || op == Equals }
  predicate AtEnd(op: Operator) { op == Ends || op == Equals }

  function BranchOf(start: bool, end: bool, key: string): Branch {
    (if start then [LineStart] else []) + Lits(key) + (if end then [LineEnd] else [])
  }

  /** One branch for each key, the key as literals; the anchors are on the first and the last
      branch only. */
  function Branches(op: Operator, keys: seq<string>): (bs: seq<Branch>)
    ensures |bs| == |keys|
    ensures forall i :: 0 <= i < |keys| ==> bs[i] == BranchOf(AtStart(op) && i == 0, AtEnd(op) && i == |keys| - 1, keys[i])
  {
    seq(|keys|, i requires 0 <= i < |keys| => BranchOf(AtStart(op) && i == 0, AtEnd(op) && i == |keys| - 1, keys[i]))
  }

  lemma ParseToken(written: string, rest: string, t: Token, bs: seq<Branch>)
    requires written != "" && FirstToken(written + rest) == Some(t) && t.width == |written|
    requires Parse(rest) == Some(bs)
    ensures Parse(written + rest) == Some(Extended(t, bs))
  {
    assert (written + rest)[|written|..] == rest;
  }

  lemma ParseLiteral(c: char, rest: string, bs: seq<Branch>)
    requires Parse(rest) == Some(bs)
    ensures Parse(Escaped(c) + rest) == Some(Lead([Lit(c)], bs))
  {
    if c in SPECIAL { SpecialIsNoLetter(c); } else { PlainIsLiteral(c); }
    ParseToken(Escaped(c), rest, Unit(Lit(c), |Escaped(c)|), bs);
  }

  lemma LeadTwice(key: string, bs: seq<Branch>)
    requires bs != []
    ensures key == "" ==> Lead(Lits(key), bs) == bs
    ensures key != "" ==> Lead([Lit(key[0])], Lead(Lits(key[1..]), bs)) == Lead(Lits(key), bs)
  {
    if key == "" { assert Lits(key) + bs[0] == bs[0]; }
    else { assert [Lit(key[0])] + (Lits(key[1..]) + bs[0]) == Lits(key) + bs[0]; }
  }

  lemma Associative(a: string, b: string, c: string)
    ensures a + b + c == a + (b + c)
  {
  }

  lemma {:induction false} ParseEscaped(key: string, rest: string, bs: seq<Branch>)
    requires Parse(rest) == Some(bs)
    ensures Parse(Escape(key) + rest) == Some(Lead(Lits(key), bs))
  {
    LeadTwice(key, bs);
    if key == "" {
      assert Escape(key) + rest == rest;
    } else {
      var tail := Escape(key[1..]) + rest;
      ParseEscaped(key[1..], rest, bs);
      ParseLiteral(key[0], tail, Lead(Lits(key[1..]), bs));
      Associative(Escaped(key[0]), Escape(key[1..]), rest);
    }
  }

  lemma SpecialIsNoLetter(c: char)
    requires c in SPECIAL
    ensures !Alphanumeric(c)
  {
  }

  lemma PlainIsLiteral(c: char)
    requires c !in SPECIAL
    ensures c !in META && c != '|' && c != '\\' && c != '^' && c != '$'
  {
    assert SPECIAL[10] == '|' && SPECIAL[11] == '^' && SPECIAL[12] == '$' && SPECIAL[13] == '\\';
    assert META == [SPECIAL[14], SPECIAL[7], SPECIAL[8], SPECIAL[6]] + SPECIAL[..6];
  }

  lemma ParseTail(end: bool)
    ensures Parse(if end then "$" else "") == Some([if end then [LineEnd] else []])
  {
    assert Parse("") == Some([[]]);
    if end {
      ParseToken("$", "", Unit(LineEnd, 1), [[]]);
      assert "$" + "" == "$";
      LeadOne(LineEnd);
    }
  }

  lemma LeadOne(a: Atom)
    ensures Lead([a], [[]]) == [[a]]
  {
    assert [a] + [] == [a];
  }

  /** The anchors and the further keys, branch by branch. */
  lemma LastBranch(op: Operator, key: string)
    requires !AtStart(op)
    ensures Branches(op, [key]) == Lead(Lits(key), [if AtEnd(op) then [LineEnd] else []])
  {
    assert BranchOf(false, AtEnd(op), key) == Lits(key) + (if AtEnd(op) then [LineEnd] else []);
  }

  lemma EarlierBranch(op: Operator, keys: seq<string>)
    requires !AtStart(op) && |keys| > 1
    ensures Branches(op, keys) == Lead(Lits(keys[0]), [[]] + Branches(op, keys[1..]))
  {
    assert BranchOf(false, false, keys[0]) == Lits(keys[0]) + [];
  }

  lemma AnchoredBranch(op: Operator, keys: seq<string>)
    requires AtStart(op) && keys != []
    ensures Branches(op, keys) == Lead([LineStart], Branches(if AtEnd(op) then Ends else Anywhere, keys))
  {
    var last := AtEnd(op) && |keys| == 1;
    assert BranchOf(true, last, keys[0]) == [LineStart] + BranchOf(false, last, keys[0]);
  }

  lemma AlternationStep(keys: seq<string>, tail: string)
    requires |keys| > 1
    ensures Alternation(keys) + tail == Escape(keys[0]) + ("|" + (Alternation(keys[1..]) + tail))
  {
    var rest := Alternation(keys[1..]);
    Associative(Escape(keys[0]) + "|", rest, tail);
    Associative(Escape(keys[0]), "|", rest + tail);
  }

  /** The branches of the keys alone, or with the anchor at the end. */
  lemma {:induction false} ParseAlternation(op: Operator, keys: seq<string>, tail: string)
    requires !AtStart(op) && keys != [] && tail == if AtEnd(op) then "$" else ""
    ensures Parse(Alternation(keys) + tail) == Some(Branches(op, keys))
  {
    if |keys| == 1 {
      assert keys == [keys[0]];
      LastBranch(op, keys[0]);
      ParseTail(AtEnd(op));
      ParseEscaped(keys[0], tail, [if AtEnd(op) then [LineEnd] else []]);
    } else {
      var rest, bs := Alternation(keys[1..]) + tail, Branches(op, keys[1..]);
      ParseAlternation(op, keys[1..], tail);
      ParseToken("|", rest, Bar(1), bs);
      ParseEscaped(keys[0], "|" + rest, [[]] + bs);
      EarlierBranch(op, keys);
      AlternationStep(keys, tail);
    }
  }

  /** Whatever metacharacters the keys contain, the compiled pattern parses to them. */
  lemma CompiledParses(op: Operator, keys: seq<string>)
    requires keys != []
    ensures Parse(Compile(op, keys)) == Some(Branches(op, keys))
  {
    var tail, unanchored := if AtEnd(op) then "$" else "", if AtEnd(op) then Ends else Anywhere;
    ParseAlternation(unanchored, keys, tail);
    if AtStart(op) {
      ParseToken("^", Alternation(keys) + tail, Unit(LineStart, 1), Branches(unanchored, keys));
      AnchoredBranch(op, keys);
    }
    CompileIs(op, keys);
  }

  lemma CompileIs(op: Operator, keys: seq<string>)
    ensures Compile(op, keys) == (if AtStart(op) then "^" + (Alternation(keys) + (if AtEnd(op) then "$" else ""))
                                  else Alternation(keys) + (if AtEnd(op) then "$" else ""))
  {
  }

  // ---------- what a match means ----------

  predicate Occurs(key: string, text: string, i: nat) {
    i + |key| <= |text| && text[i..i + |key|] == key
  }

  lemma OccursFrom(key: string, text: string, i: nat, j: nat)
    requires j < |key|
    ensures Occurs(key, text, i) ==> text[i + j] == key[j]
  {
    if Occurs(key, text, i) { assert key[j] == text[i..i + |key|][j]; }
  }

  /** The key occurs in the text: at its start, at its end, or both, where that is asked for. */
  predicate KeyIn(start: bool, end: bool, key: string, text: string) {
    exists i :: 0 <= i <= |text| && Occurs(key, text, i) && (start ==> i == 0) && (end ==> i + |key| == |text|)
  }

  lemma OccursStep(key: string, text: string, i: nat)
    requires key != ""
    ensures Occurs(key, text, i) <==> i < |text| && text[i] == key[0] && Occurs(key[1..], text, i + 1)
  {
    if i + |key| <= |text| {
      assert text[i..i + |key|] == [text[i]] + text[i + 1..i + |key|];
      assert key == [key[0]] + key[1..];
    }
  }

  lemma {:induction false} MatchLits(key: string, rest: Branch, text: string, i: nat)
    requires i <= |text|
    ensures MatchFrom(Lits(key) + rest, text, i) <==> Occurs(key, text, i) && MatchFrom(rest, text, i + |key|)
  {
    if key == "" {
      assert Lits(key) + rest == rest;
    } else {
      OccursStep(key, text, i);
      var b := Lits(key) + rest;
      assert b[0] == Lit(key[0]) && b[1..] == Lits(key[1..]) + rest;
      if i < |text| { MatchLits(key[1..], rest, text, i + 1); }
    }
  }

  lemma BranchMeans(op: Operator, keys: seq<string>, k: nat, text: string)
    requires k < |keys|
    ensures BranchFound(Branches(op, keys)[k], text)
       <==> KeyIn(AtStart(op) && k == 0, AtEnd(op) && k == |keys| - 1, keys[k], text)
  {
    var start, end := AtStart(op) && k == 0, AtEnd(op) && k == |keys| - 1;
    var b := Branches(op, keys)[k];
    var rest: Branch := if end then [LineEnd] else [];
    assert b == (if start then [LineStart] else []) + (Lits(keys[k]) + rest);
    forall i | 0 <= i <= |text|
      ensures MatchFrom(b, text, i) <==> Occurs(keys[k], text, i) && (start ==> i == 0) && (end ==> i + |keys[k]| == |text|)
    {
      MatchLits(keys[k], rest, text, i);
      assert start ==> b[1..] == Lits(keys[k]) + rest;
      assert !start ==> b == Lits(keys[k]) + rest;
      if Occurs(keys[k], text, i) {
        assert end ==> rest[1..] == [];
        assert MatchFrom(rest, text, i + |keys[k]|) <==> (end ==> i + |keys[k]| == |text|);
      }
    }
  }

  /** The compiled search finds a text exactly if some key occurs in it; `starts` asks for the start
      of the text of the first key alone, `ends` for its end of the last key alone, and `equals`
      both of these. With one key that is a prefix, a suffix and the whole text. */
  lemma CompiledMeans(op: Operator, keys: seq<string>, text: string)
    requires keys != []
    ensures Found(Compile(op, keys), text)
       <==> exists k :: 0 <= k < |keys| && KeyIn(AtStart(op) && k == 0, AtEnd(op) && k == |keys| - 1, keys[k], text)
  {
    CompiledParses(op, keys);
    var bs := Branches(op, keys);
    if b :| b in bs && BranchFound(b, text) {
      var k :| 0 <= k < |bs| && bs[k] == b;
      BranchMeans(op, keys, k, text);
    }
    if k :| 0 <= k < |keys| && KeyIn(AtStart(op) && k == 0, AtEnd(op) && k == |keys| - 1, keys[k], text) {
      BranchMeans(op, keys, k, text);
      assert bs[k] in bs;
    }
  }

  lemma OneKey(op: Operator, key: string, text: string)
    ensures Found(Compile(op, [key]), text)
       <==> match op
            case Starts => key <= text
            case Ends => |key| <= |text| && text[|text| - |key|..] == key
            case Equals => text == key
            case Anywhere => exists i :: 0 <= i <= |text| && Occurs(key, text, i)
  {
    CompiledMeans(op, [key], text);
    assert Found(Compile(op, [key]), text) <==> KeyIn(AtStart(op), AtEnd(op), key, text);
    if |key| <= |text| {
      assert Occurs(key, text, 0) <==> key <= text;
      assert text[|text| - |key|..|text|] == text[|text| - |key|..];
      assert Occurs(key, text, |text| - |key|) <==> text[|text| - |key|..] == key;
    }
  }

  /** One key more never loses a match, whatever it does to the anchors. */
  lemma MoreKeysFindMore(op: Operator, keys: seq<string>, more: string, text: string)
    requires keys != [] && Found(Compile(op, keys), text)
    ensures Found(Compile(op, keys + [more]), text)
  {
    CompiledMeans(op, keys, text);
    CompiledMeans(op, keys + [more], text);
    var k :| 0 <= k < |keys| && KeyIn(AtStart(op) && k == 0, AtEnd(op) && k == |keys| - 1, keys[k], text);
    assert (keys + [more])[k] == keys[k];
    assert KeyIn(AtStart(op) && k == 0, false, keys[k], text);
  }

  // ---------- against the documented intent ----------

  /** What the API documents: every key is looked for at the start, at the end, or as the whole. */
  predicate Intended(op: Operator, keys: seq<string>, text: string) {
    exists k :: 0 <= k < |keys| && KeyIn(AtStart(op), AtEnd(op), keys[k], text)
  }

  ghost predicate AsIntended(op: Operator, keys: seq<string>) {
    forall text :: Found(Compile(op, keys), text) <==> Intended(op, keys, text)
  }

  /** Nothing that is intended is missed. */
  lemma IntendedIsFound(op: Operator, keys: seq<string>, text: string)
    requires Intended(op, keys, text)
    ensures Found(Compile(op, keys), text)
  {
    CompiledMeans(op, keys, text);
    var k :| 0 <= k < |keys| && KeyIn(AtStart(op), AtEnd(op), keys[k], text);
    assert KeyIn(AtStart(op) && k == 0, AtEnd(op) && k == |keys| - 1, keys[k], text);
  }

  /** The characters that keys begin with, for `starts`, or end with. */
  function Edges(op: Operator, keys: seq<string>): (cs: seq<char>)
    ensures |cs| <= |keys|
    ensures forall k :: 0 <= k < |keys| && keys[k] != "" ==> (if op == Starts then keys[k][0] else keys[k][|keys[k]| - 1]) in cs
  {
    if keys == [] then []
    else
      var key := keys[0];
      assert forall k :: 1 <= k < |keys| ==> keys[k] == keys[1..][k - 1];
      (if key == "" then [] else if op == Starts then [key[0]] else [key[|key| - 1]]) + Edges(op, keys[1..])
  }

  /** The characters, in order: all code points but the surrogates. */
  const CHARACTERS: nat := 0x10F800

  function Character(i: nat): char
    requires i < CHARACTERS
  {
    (if i < 0xD800 then i else i + 0x800) as char
  }

  function IndexOf(c: char): (i: nat)
    ensures i < CHARACTERS && Character(i) == c
  {
    if c as int < 0xD800 then c as int else c as int - 0x800
  }

  /** Some character is not among fewer characters than there are. */
  lemma {:induction false} Unused(used: seq<char>, n: nat) returns (c: char)
    requires |used| < n <= CHARACTERS
    ensures c !in used && IndexOf(c) < n
    decreases n
  {
    c := Character(n - 1);
    if c in used {
      var last := c;
      var i :| 0 <= i < |used| && used[i] == last;
      var others := used[..i] + used[i + 1..];
      c := Unused(others, n - 1);
      forall j | 0 <= j < |used| ensures used[j] != c {
        assert j < i ==> used[j] == others[j];
        assert j > i ==> used[j] == others[j - 1];
      }
    }
  }

  /** Text longer than every key. */
  function Longer(keys: seq<string>): (text: string)
    ensures forall k :: 0 <= k < |keys| ==> |keys[k]| < |text|
  {
    if keys == [] then "x"
    else
      assert forall k :: 1 <= k < |keys| ==> keys[k] == keys[1..][k - 1];
      keys[0] + Longer(keys[1..])
  }

  /** With two keys or more, a text is found that is not intended. */
  lemma NotIntended(op: Operator, keys: seq<string>, c: char) returns (text: string)
    requires op != Anywhere && |keys| >= 2
    requires op != Equals ==> "" !in keys && c !in Edges(op, keys)
    ensures Found(Compile(op, keys), text) && !Intended(op, keys, text)
  {
    match op
    case Starts =>
      text := [c] + keys[1];
      assert Occurs(keys[1], text, 1) && KeyIn(false, false, keys[1], text);
      forall k | 0 <= k < |keys| ensures !KeyIn(true, false, keys[k], text) {
        assert keys[k] in keys && keys[k][0] != c;
        OccursFrom(keys[k], text, 0, 0);
      }
      CompiledMeans(op, keys, text);
    case Ends =>
      text := keys[0] + [c];
      assert Occurs(keys[0], text, 0) && KeyIn(false, false, keys[0], text);
      forall k | 0 <= k < |keys| ensures !KeyIn(false, true, keys[k], text) {
        var i, n := |text| - |keys[k]|, |keys[k]|;
        assert keys[k] in keys && keys[k][n - 1] != c;
        if i >= 0 { OccursFrom(keys[k], text, i, n - 1); }
      }
      CompiledMeans(op, keys, text);
    case Equals =>
      text := keys[0] + Longer(keys);
      assert Occurs(keys[0], text, 0) && KeyIn(true, false, keys[0], text);
      CompiledMeans(op, keys, text);
  }

  /** The search does what is documented, for every text, exactly when it has no operator, or one
      key, or, but for `equals`, an empty key. A list with as many keys as there are characters, or
      more, may escape this, as AllCharacters shows. */
  lemma AsIntendedIff(op: Operator, keys: seq<string>)
    requires keys != []
    ensures op == Anywhere || |keys| == 1 || (op != Equals && "" in keys) ==> AsIntended(op, keys)
    ensures |keys| < CHARACTERS || op == Equals ==>
              (AsIntended(op, keys) ==> op == Anywhere || |keys| == 1 || (op != Equals && "" in keys))
  {
    if op == Anywhere || |keys| == 1 {
      forall text ensures Found(Compile(op, keys), text) <==> Intended(op, keys, text) {
        CompiledMeans(op, keys, text);
      }
    } else if op != Equals && "" in keys {
      var k :| 0 <= k < |keys| && keys[k] == "";
      forall text ensures Found(Compile(op, keys), text) && Intended(op, keys, text) {
        assert op == Starts ==> Occurs("", text, 0);
        assert Occurs("", text, |text|);
        assert KeyIn(AtStart(op), AtEnd(op), keys[k], text);
        IntendedIsFound(op, keys, text);
      }
    } else if |keys| < CHARACTERS || op == Equals {
      var c := 'x';
      if op != Equals { c := Unused(Edges(op, keys), CHARACTERS); }
      var text := NotIntended(op, keys, c);
    }
  }

  /** One key for each character. */
  function AllCharacters(): (keys: seq<string>)
    ensures |keys| == CHARACTERS && forall i :: 0 <= i < CHARACTERS ==> keys[i] == [Character(i)]
  {
    seq(CHARACTERS, i requires 0 <= i < CHARACTERS => [Character(i)])
  }

  /** The bound is exact: with a key for each character, every text that holds one begins and ends
      with one. */
  lemma AllCharactersAgree(op: Operator)
    requires op == Starts || op == Ends
    ensures AsIntended(op, AllCharacters()) && |AllCharacters()| == CHARACTERS && "" !in AllCharacters()
  {
    forall text ensures Found(Compile(op, AllCharacters()), text) <==> Intended(op, AllCharacters(), text) {
      AnyTextAgrees(op, AllCharacters(), text);
    }
    forall k | 0 <= k < CHARACTERS ensures AllCharacters()[k] != "" { assert |AllCharacters()[k]| == 1; }
  }

  lemma AnyTextAgrees(op: Operator, keys: seq<string>, text: string)
    requires (op == Starts || op == Ends) && |keys| == CHARACTERS && forall i :: 0 <= i < CHARACTERS ==> keys[i] == [Character(i)]
    ensures Found(Compile(op, keys), text) <==> Intended(op, keys, text)
  {
    if text == "" {
      CompiledMeans(op, keys, text);
      assert forall k :: 0 <= k < |keys| ==> |keys[k]| == 1;
    } else {
      var at := if op == Starts then 0 else |text| - 1;
      var k := IndexOf(text[at]);
      assert text[at..at + 1] == [text[at]] == keys[k];
      assert Occurs(keys[k], text, at) && KeyIn(AtStart(op), AtEnd(op), keys[k], text);
      IntendedIsFound(op, keys, text);
    }
  }
}
