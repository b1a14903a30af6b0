/** internal/questionnaire/matcher.go: normalizeText and containsPhrase, over any classification of
    characters. Go changes case character by character. */
module Text {
  /** The letters and digits, the white space, and the characters with another lower or upper case. */
  datatype Alphabet = Alphabet(word: set<char>, space: set<char>, lower: map<char, char>, upper: map<char, char>)

  predicate IsWord(a: Alphabet, c: char) { c in a.word }

  predicate IsSpace(a: Alphabet, c: char) { c in a.space }

  function Mapped(table: map<char, char>, c: char): char { if c in table then table[c] else c }

  /** What the Unicode tables grant: lower-casing twice is lower-casing once, and a space is neither
      a letter nor a digit nor has a case. */
  ghost predicate Sound(a: Alphabet) {
    (forall c :: Mapped(a.lower, Mapped(a.lower, c)) == Mapped(a.lower, c)) && Mapped(a.lower, ' ') == ' ' && !IsWord(a, ' ')
  }

  /** strings.ToLower and strings.ToUpper, given the table. */
  function Map(table: map<char, char>, s: string): string {
    seq(|s|, i requires 0 <= i < |s| => Mapped(table, s[i]))
  }

  // ---- tokens ----

  function WordLength(a: Alphabet, s: string): (n: nat)
    ensures n <= |s| && (forall i | 0 <= i < n :: IsWord(a, s[i]))
    ensures n < |s| ==> !IsWord(a, s[n])
  {
    if s == "" || !IsWord(a, s[0]) then 0 else 1 + WordLength(a, s[1..])
  }

  /** strings.FieldsFunc on the non-word characters. */
  function Fields(a: Alphabet, s: string): seq<string>
    decreases |s|
  {
    if s == "" then []
    else if !IsWord(a, s[0]) then Fields(a, s[1..])
    else
      var n := WordLength(a, s);
      [s[..n]] + Fields(a, s[n..])
  }

  function Join(ts: seq<string>, sep: string): string {
    if ts == [] then "" else if |ts| == 1 then ts[0] else ts[0] + sep + Join(ts[1..], sep)
  }

  function Tokens(a: Alphabet, s: string): seq<string> { Fields(a, Map(a.lower, s)) }

  function NormalizeText(a: Alphabet, s: string): string { Join(Tokens(a, s), " ") }

  predicate Occurs(s: string, sub: string, i: int) { 0 <= i && i + |sub| <= |s| && s[i..i + |sub|] == sub }

  /** strings.Contains. */
  predicate Contains(s: string, sub: string) { exists i | 0 <= i <= |s| :: Occurs(s, sub, i) }

  predicate ContainsPhrase(text: string, phrase: string) {
    Contains(" " + text + " ", " " + phrase + " ")
  }

  // ---- what they mean ----

  predicate Word(a: Alphabet, t: string) { t != "" && forall i | 0 <= i < |t| :: IsWord(a, t[i]) }

  predicate Words(a: Alphabet, ts: seq<string>) { forall i | 0 <= i < |ts| :: Word(a, ts[i]) }

  lemma {:induction false} FieldsAreWords(a: Alphabet, s: string)
    ensures Words(a, Fields(a, s))
    decreases |s|
  {
    if s == "" {
    } else if !IsWord(a, s[0]) {
      FieldsAreWords(a, s[1..]);
    } else {
      FieldsAreWords(a, s[WordLength(a, s)..]);
    }
  }

  /** Every token, preceded by a space. */
  function Spaced(ts: seq<string>): string {
    if ts == [] then "" else " " + ts[0] + Spaced(ts[1..])
  }

  lemma {:induction false} JoinSpaced(ts: seq<string>)
    requires ts != []
    ensures " " + Join(ts, " ") == Spaced(ts)
  {
    if |ts| > 1 {
      JoinSpaced(ts[1..]);
      calc {
        " " + Join(ts, " ");
        " " + (ts[0] + " " + Join(ts[1..], " "));
        " " + ts[0] + (" " + Join(ts[1..], " "));
        Spaced(ts);
      }
    } else {
      assert ts[1..] == [];
      assert Spaced(ts) == " " + ts[0] + "";
    }
  }

  function Pad(ts: seq<string>): string { Spaced(ts) + " " }

  lemma PadFirst(ts: seq<string>)
    requires ts != []
    ensures Pad(ts) == " " + ts[0] + Pad(ts[1..])
  {
  }

  lemma {:induction false} SpacedConcat(x: seq<string>, y: seq<string>)
    ensures Spaced(x + y) == Spaced(x) + Spaced(y)
  {
    if x == [] {
      assert x + y == y;
    } else {
      SpacedConcat(x[1..], y);
      assert (x + y)[1..] == x[1..] + y;
    }
  }

  lemma FirstWord(a: Alphabet, ts: seq<string>, i: int)
    requires !IsWord(a, ' ') && Words(a, ts) && ts != [] && 0 < i <= |ts[0]|
    ensures i < |Pad(ts)| && Pad(ts)[i] != ' '
  {
    PadFirst(ts);
    assert Word(a, ts[0]);
    assert Pad(ts)[i] == ts[0][i - 1];
  }

  /** The padded text after its first token: everything from the next space on. */
  lemma AfterFirst(a: Alphabet, ts: seq<string>, i: int)
    requires !IsWord(a, ' ') && Words(a, ts) && ts != [] && 0 <= i < |Pad(ts)| && Pad(ts)[i] == ' '
    ensures i == 0 || (i > |ts[0]| && Pad(ts)[i..] == Pad(ts[1..])[i - 1 - |ts[0]|..])
  {
    PadFirst(ts);
    if 0 < i <= |ts[0]| { FirstWord(a, ts, i); }
  }

  predicate IsPrefix<T(==)>(p: seq<T>, s: seq<T>) { |p| <= |s| && s[..|p|] == p }

  /** A padded token list starts with another exactly when the tokens do. */
  lemma {:induction false} PadPrefix(a: Alphabet, p: seq<string>, t: seq<string>)
    requires !IsWord(a, ' ') && Words(a, p) && Words(a, t)
    ensures IsPrefix(Pad(p), Pad(t)) <==> IsPrefix(p, t)
  {
    if p == [] {
      assert Pad(p) == " ";
      if t != [] { PadFirst(t); }
    } else if t == [] {
      PadFirst(p);
      assert Word(a, p[0]);
    } else {
      PadFirst(p);
      PadFirst(t);
      PadPrefix(a, p[1..], t[1..]);
      SameFirst(a, p[0], t[0], Pad(p[1..]), Pad(t[1..]));
      assert p == [p[0]] + p[1..] && t == [t[0]] + t[1..];
      assert IsPrefix(p, t) <==> p[0] == t[0] && IsPrefix(p[1..], t[1..]);
    }
  }

  lemma PadStarts(ts: seq<string>)
    ensures Pad(ts)[0] == ' '
  {
    if ts != [] { PadFirst(ts); }
  }

  lemma FirstSpace(a: Alphabet, t: string, x: string, m: nat)
    requires !IsWord(a, ' ') && Word(a, t) && x != "" && x[0] == ' ' && m <= |t|
    ensures (" " + t + x)[1 + m] == ' ' <==> m == |t|
  {
    if m < |t| { assert (" " + t + x)[1 + m] == t[m]; }
  }

  lemma SameFirst(a: Alphabet, p: string, t: string, x: string, y: string)
    requires !IsWord(a, ' ') && Word(a, p) && Word(a, t) && x != "" && y != "" && x[0] == ' ' && y[0] == ' '
    ensures IsPrefix(" " + p + x, " " + t + y) <==> p == t && IsPrefix(x, y)
  {
    var l, r := " " + p + x, " " + t + y;
    if IsPrefix(l, r) {
      var m := if |p| < |t| then |p| else |t|;
      FirstSpace(a, p, x, m);
      FirstSpace(a, t, y, m);
      assert r[..|l|][1 + m] == r[1 + m];
      assert |p| == |t|;
      assert l[1..1 + |p|] == p && r[1..1 + |t|] == t;
      assert l[1 + |p|..] == x && r[1 + |t|..] == y;
      assert r[..|l|][1..1 + |p|] == r[1..1 + |p|];
      assert y[..|x|] == r[..|l|][1 + |p|..];
    }
    if p == t && IsPrefix(x, y) {
      assert r[..|l|] == " " + t + y[..|x|];
    }
  }

  /** The phrase's tokens stand next to each other in the text. */
  predicate Run(text: seq<string>, phrase: seq<string>) {
    exists i | 0 <= i <= |text| :: RunAt(text, phrase, i)
  }

  predicate RunAt(text: seq<string>, phrase: seq<string>, i: int) {
    0 <= i && i + |phrase| <= |text| && text[i..i + |phrase|] == phrase
  }

  lemma {:induction false} OccurrenceIsRun(a: Alphabet, text: seq<string>, phrase: seq<string>, i: int)
    requires !IsWord(a, ' ') && Words(a, text) && Words(a, phrase) && phrase != []
    requires Occurs(Pad(text), Pad(phrase), i)
    ensures Run(text, phrase)
    decreases |text|
  {
    PadStarts(phrase);
    assert Pad(text)[i] == Pad(text)[i..i + |Pad(phrase)|][0] == ' ';
    if i == 0 {
      PadPrefix(a, phrase, text);
      assert Pad(text)[..|Pad(phrase)|] == Pad(text)[0..0 + |Pad(phrase)|];
      assert RunAt(text, phrase, 0);
    } else {
      TooShort(a, phrase);
      AfterFirst(a, text, i);
      var j := i - 1 - |text[0]|;
      PadFirst(text);
      assert Pad(text[1..])[j..j + |Pad(phrase)|] == Pad(text)[i..][..|Pad(phrase)|];
      assert Pad(text)[i..][..|Pad(phrase)|] == Pad(text)[i..i + |Pad(phrase)|];
      OccurrenceIsRun(a, text[1..], phrase, j);
      var rest := text[1..];
      var k :| 0 <= k <= |rest| && RunAt(rest, phrase, k);
      assert text[k + 1..k + 1 + |phrase|] == rest[k..k + |phrase|];
      assert RunAt(text, phrase, k + 1);
    }
  }

  lemma TooShort(a: Alphabet, phrase: seq<string>)
    requires Words(a, phrase) && phrase != []
    ensures |Pad(phrase)| >= 3
  {
    PadFirst(phrase);
    assert Word(a, phrase[0]);
  }

  lemma RunIsOccurrence(a: Alphabet, text: seq<string>, phrase: seq<string>, i: int)
    requires RunAt(text, phrase, i)
    ensures Contains(Pad(text), Pad(phrase))
  {
    var before, after := text[..i], text[i + |phrase|..];
    assert text == before + (phrase + after);
    SpacedConcat(before, phrase + after);
    SpacedConcat(phrase, after);
    PadStarts(after);
    assert Pad(after) == " " + Pad(after)[1..];
    PaddedMiddle(Spaced(before), Spaced(phrase), Pad(after)[1..]);
    assert Pad(text) == Spaced(before) + (Spaced(phrase) + " ") + Pad(after)[1..];
  }

  lemma PaddedMiddle(x: string, s: string, y: string)
    ensures Contains(x + (s + " ") + y, s + " ")
  {
    assert Occurs(x + (s + " ") + y, s + " ", |x|);
  }

  /** Two spaces in a row occur only around the empty text. */
  lemma {:induction false} NoDoubleSpace(a: Alphabet, ts: seq<string>, i: int)
    requires !IsWord(a, ' ') && Words(a, ts) && 0 <= i && i + 1 < |Pad(ts)|
    ensures Pad(ts)[i] != ' ' || Pad(ts)[i + 1] != ' '
    decreases |ts|
  {
    if ts != [] {
      PadFirst(ts);
      assert Word(a, ts[0]);
      if Pad(ts)[i] == ' ' {
        AfterFirst(a, ts, i);
        if i == 0 {
          assert Pad(ts)[1] == ts[0][0];
        } else {
          var j := i - 1 - |ts[0]|;
          assert Pad(ts)[i] == Pad(ts[1..])[j] && Pad(ts)[i + 1] == Pad(ts[1..])[j + 1];
          NoDoubleSpace(a, ts[1..], j);
        }
      }
    }
  }

  /** PHRASES ARE TOKEN RUNS: on joined tokens the string test holds exactly when the phrase's
      tokens are a contiguous run of the text's, or both lists are empty. */
  lemma PhraseIsRun(a: Alphabet, text: seq<string>, phrase: seq<string>)
    requires !IsWord(a, ' ') && Words(a, text) && Words(a, phrase)
    ensures ContainsPhrase(Join(text, " "), Join(phrase, " "))
            <==> if phrase == [] then text == [] else Run(text, phrase)
  {
    var s, p := " " + Join(text, " ") + " ", " " + Join(phrase, " ") + " ";
    if text != [] { JoinSpaced(text); assert s == Pad(text); } else { assert s == "  "; }
    if phrase != [] { JoinSpaced(phrase); assert p == Pad(phrase); TooShort(a, phrase); } else { assert p == "  "; }
    if phrase == [] {
      if text == [] {
        assert Occurs(s, p, 0);
      } else {
        forall i ensures !Occurs(s, p, i) {
          if 0 <= i && i + 2 <= |s| {
            NoDoubleSpace(a, text, i);
            assert s[i..i + 2][0] == s[i] && s[i..i + 2][1] == s[i + 1];
          }
        }
      }
    } else if text != [] {
      if Contains(s, p) {
        var i :| Occurs(s, p, i);
        OccurrenceIsRun(a, text, phrase, i);
      }
      if Run(text, phrase) {
        var i :| RunAt(text, phrase, i);
        RunIsOccurrence(a, text, phrase, i);
      }
    }
  }

  /** On normalised text: no partial-word match is possible. */
  lemma ContainsPhraseMeansRun(a: Alphabet, text: string, phrase: string)
    requires Sound(a)
    ensures ContainsPhrase(NormalizeText(a, text), NormalizeText(a, phrase))
            <==> if Tokens(a, phrase) == [] then Tokens(a, text) == [] else Run(Tokens(a, text), Tokens(a, phrase))
  {
    FieldsAreWords(a, Map(a.lower, text));
    FieldsAreWords(a, Map(a.lower, phrase));
    PhraseIsRun(a, Tokens(a, text), Tokens(a, phrase));
  }

  // ---- normalising twice ----

  predicate Fixed(table: map<char, char>, s: string) { forall i | 0 <= i < |s| :: Mapped(table, s[i]) == s[i] }

  predicate AllFixed(table: map<char, char>, ts: seq<string>) { forall i | 0 <= i < |ts| :: Fixed(table, ts[i]) }

  lemma {:induction false} FieldsFixed(a: Alphabet, s: string)
    requires Fixed(a.lower, s)
    ensures AllFixed(a.lower, Fields(a, s))
    decreases |s|
  {
    if s == "" {
    } else if !IsWord(a, s[0]) {
      FieldsFixed(a, s[1..]);
    } else {
      FieldsFixed(a, s[WordLength(a, s)..]);
    }
  }

  lemma {:induction false} JoinFixed(table: map<char, char>, ts: seq<string>)
    requires AllFixed(table, ts) && Mapped(table, ' ') == ' '
    ensures Fixed(table, Join(ts, " "))
  {
    if ts != [] {
      assert Fixed(table, ts[0]);
      if |ts| > 1 { JoinFixed(table, ts[1..]); }
    }
  }

  lemma {:induction false} WordLengthIs(a: Alphabet, t: string, rest: string)
    requires (forall i | 0 <= i < |t| :: IsWord(a, t[i])) && (rest != "" ==> !IsWord(a, rest[0]))
    ensures WordLength(a, t + rest) == |t|
  {
    if t == "" {
      assert t + rest == rest;
    } else {
      WordLengthIs(a, t[1..], rest);
      assert (t + rest)[1..] == t[1..] + rest;
    }
  }

  lemma {:induction false} FieldsOfJoin(a: Alphabet, ts: seq<string>)
    requires Words(a, ts) && !IsWord(a, ' ')
    ensures Fields(a, Join(ts, " ")) == ts
    decreases |ts|
  {
    if ts != [] {
      var t := ts[0];
      assert Word(a, t);
      var rest := if |ts| == 1 then "" else " " + Join(ts[1..], " ");
      var s := t + rest;
      assert Join(ts, " ") == s;
      WordLengthIs(a, t, rest);
      assert s[..|t|] == t && s[|t|..] == rest;
      assert Fields(a, s) == [t] + Fields(a, rest);
      FieldsOfJoin(a, ts[1..]);
      if |ts| > 1 { assert rest[1..] == Join(ts[1..], " "); }
      assert Fields(a, rest) == ts[1..];
      assert ts == [t] + ts[1..];
    }
  }

  lemma NormalizeIsIdempotent(a: Alphabet, s: string)
    requires Sound(a)
    ensures Tokens(a, NormalizeText(a, s)) == Tokens(a, s)
    ensures NormalizeText(a, NormalizeText(a, s)) == NormalizeText(a, s)
  {
    var l := Map(a.lower, s);
    assert Fixed(a.lower, l);
    FieldsFixed(a, l);
    JoinFixed(a.lower, Fields(a, l));
    var n := NormalizeText(a, s);
    assert Map(a.lower, n) == n;
    FieldsAreWords(a, l);
    FieldsOfJoin(a, Fields(a, l));
  }

  // ---- strings.TrimSpace ----

  function TrimLeft(a: Alphabet, s: string): (r: string)
    ensures r != "" ==> !IsSpace(a, r[0])
  {
    if s != "" && IsSpace(a, s[0]) then TrimLeft(a, s[1..]) else s
  }

  function TrimRight(a: Alphabet, s: string): (r: string)
    ensures |r| <= |s| && r == s[..|r|]
    ensures r != "" ==> !IsSpace(a, r[|r| - 1])
  {
    if s != "" && IsSpace(a, s[|s| - 1]) then TrimRight(a, s[..|s| - 1]) else s
  }

  function Trim(a: Alphabet, s: string): string { TrimRight(a, TrimLeft(a, s)) }

  predicate Trimmed(a: Alphabet, s: string) {
    s != "" ==> !IsSpace(a, s[0]) && !IsSpace(a, s[|s| - 1])
  }

  lemma TrimIdempotent(a: Alphabet, s: string)
    ensures Trimmed(a, Trim(a, s)) && Trim(a, Trim(a, s)) == Trim(a, s)
    ensures Trim(a, s) == s <==> Trimmed(a, s)
  {
    var l := TrimLeft(a, s);
    assert Trim(a, s) != "" ==> Trim(a, s)[0] == l[0];
  }

  // ---- what tokens and trimming are ----

  lemma {:induction false} FieldsAround(a: Alphabet, s: string, sep: char, t: string)
    requires !IsWord(a, sep)
    ensures Fields(a, s + [sep] + t) == Fields(a, s) + Fields(a, t)
    decreases |s|
  {
    var all := s + [sep] + t;
    if s == "" {
      assert all[1..] == t;
    } else if !IsWord(a, s[0]) {
      assert all[1..] == s[1..] + [sep] + t;
      FieldsAround(a, s[1..], sep, t);
    } else {
      var n := WordLength(a, s);
      FieldsAround(a, s[n..], sep, t);
      FirstField(a, s[..n], s[n..] + [sep] + t);
      assert all == s[..n] + (s[n..] + [sep] + t);
    }
  }

  lemma FirstField(a: Alphabet, w: string, rest: string)
    requires Word(a, w) && (rest == "" || !IsWord(a, rest[0]))
    ensures Fields(a, w + rest) == [w] + Fields(a, rest)
  {
    WordLengthIs(a, w, rest);
    assert (w + rest)[..|w|] == w && (w + rest)[|w|..] == rest;
  }

  lemma MapAround(table: map<char, char>, x: string, c: char, y: string)
    ensures Map(table, x + [c] + y) == Map(table, x) + [Mapped(table, c)] + Map(table, y)
  {
  }

  /** SEPARATORS: a character that is no letter or digit, in lower case, parts the tokens before it from those
      after it. */
  lemma TokensAround(a: Alphabet, x: string, c: char, y: string)
    requires !IsWord(a, Mapped(a.lower, c))
    ensures Tokens(a, x + [c] + y) == Tokens(a, x) + Tokens(a, y)
  {
    MapAround(a.lower, x, c, y);
    FieldsAround(a, Map(a.lower, x), Mapped(a.lower, c), Map(a.lower, y));
  }

  /** WORDS: a run of letters and digits is one token, its lower case; nothing has none. */
  lemma TokensOfWord(a: Alphabet, t: string)
    requires forall i | 0 <= i < |t| :: IsWord(a, Mapped(a.lower, t[i]))
    ensures Tokens(a, t) == if t == "" then [] else [Map(a.lower, t)]
  {
    var s := Map(a.lower, t);
    forall i | 0 <= i < |s| ensures IsWord(a, s[i]) { assert s[i] == Mapped(a.lower, t[i]); }
    WordLengthIs(a, s, "");
    assert s + "" == s && s[..|s|] == s && s[|s|..] == "" && Fields(a, "") == [];
  }

  predicate Blanks(a: Alphabet, s: string) { forall i | 0 <= i < |s| :: IsSpace(a, s[i]) }

  lemma {:induction false} TrimLeftCuts(a: Alphabet, s: string) returns (l: string)
    ensures s == l + TrimLeft(a, s) && Blanks(a, l)
  {
    if s != "" && IsSpace(a, s[0]) {
      var m := TrimLeftCuts(a, s[1..]);
      l := [s[0]] + m;
    } else {
      l := "";
    }
  }

  lemma {:induction false} TrimRightCuts(a: Alphabet, s: string) returns (r: string)
    ensures s == TrimRight(a, s) + r && Blanks(a, r)
  {
    if s != "" && IsSpace(a, s[|s| - 1]) {
      var m := TrimRightCuts(a, s[..|s| - 1]);
      r := m + [s[|s| - 1]];
    } else {
      r := "";
    }
  }

  /** TRIMMING takes white space off both ends, all of it and nothing else. */
  lemma TrimCuts(a: Alphabet, s: string) returns (l: string, r: string)
    ensures s == l + Trim(a, s) + r && Blanks(a, l) && Blanks(a, r) && Trimmed(a, Trim(a, s))
  {
    l := TrimLeftCuts(a, s);
    r := TrimRightCuts(a, TrimLeft(a, s));
    TrimIdempotent(a, s);
  }
}
