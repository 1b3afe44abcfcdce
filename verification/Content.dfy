/**
 * Tokens and fingerprints of a memory's text. Three layers must agree on them: the store keeps
 * the fingerprint, the write path compares tokens, and the compare-and-set compares fingerprints.
 */
module Content {

  /** unicode.IsSpace */
  predicate IsSpace(c: char) {
    || '\t' <= c <= '\r' || c == ' ' || c == '\U{0085}' || c == '\U{00A0}' || c == '\U{1680}'
    || '\U{2000}' <= c <= '\U{200A}' || c == '\U{2028}' || c == '\U{2029}' || c == '\U{202F}'
    || c == '\U{205F}' || c == '\U{3000}'
  }

  const EDGE_PUNCTUATION := ".,;:!?\"'()[]{}<>"

  const HASH_LENGTH := 32

  predicate IsWord(w: string) {
    w != "" && forall c | c in w :: !IsSpace(c)
  }

  // ---- strings.Fields, strings.Trim and strings.Join

  function WordLength(s: string): (n: nat)
    ensures n <= |s| && (forall k | 0 <= k < n :: !IsSpace(s[k])) && (n < |s| ==> IsSpace(s[n]))
  {
    if s == "" || IsSpace(s[0]) then 0 else 1 + WordLength(s[1..])
  }

  function Fields(s: string): (words: seq<string>)
    ensures forall w | w in words :: IsWord(w)
    decreases |s|
  {
    if s == "" then []
    else if IsSpace(s[0]) then Fields(s[1..])
    else [s[..WordLength(s)]] + Fields(s[WordLength(s)..])
  }

  function TrimLeft(s: string): (t: string)
    ensures forall c | c in t :: c in s
    ensures t == "" || t[0] !in EDGE_PUNCTUATION
    ensures s == "" || s[0] !in EDGE_PUNCTUATION ==> t == s
  {
    if s != "" && s[0] in EDGE_PUNCTUATION then TrimLeft(s[1..]) else s
  }

  function TrimRight(s: string): (t: string)
    ensures t <= s
    ensures t == "" || t[|t| - 1] !in EDGE_PUNCTUATION
    ensures s == "" || s[|s| - 1] !in EDGE_PUNCTUATION ==> t == s
  {
    if s != "" && s[|s| - 1] in EDGE_PUNCTUATION then TrimRight(s[..|s| - 1]) else s
  }

  function Trim(s: string): string {
    TrimRight(TrimLeft(s))
  }

  function Join(words: seq<string>): string {
    if words == [] then "" else if |words| == 1 then words[0] else words[0] + " " + Join(words[1..])
  }

  function KeepTrimmed(fields: seq<string>): seq<string> {
    if fields == [] then []
    else
      var rest := KeepTrimmed(fields[..|fields| - 1]);
      var f := Trim(fields[|fields| - 1]);
      if f == "" then rest else rest + [f]
  }

  predicate IsContentHash(s: string) {
    |s| == HASH_LENGTH && forall c | c in s :: '0' <= c <= '9' || 'a' <= c <= 'f'
  }

  /**
   * What the text layer takes from outside: the runtime's lower-casing of one character, the
   * truncated hex digest of a string, and the set of polarity markers.
   */
  datatype Lexicon = Lexicon(lower: char -> char, digest: string -> string, markers: set<string>) {

    function Lowered(text: string): string {
      seq(|text|, i requires 0 <= i < |text| => lower(text[i]))
    }

    function Tokens(text: string): seq<string> {
      KeepTrimmed(Fields(Lowered(text)))
    }

    function Normal(text: string): string {
      Join(Tokens(text))
    }

    /** Empty for text without a token, which is never treated as a duplicate of anything. */
    function Hash(text: string): string {
      if Normal(text) == "" then "" else digest(Normal(text))
    }

    /** The digest has the promised shape and does not collide on these texts. */
    ghost predicate CollisionFree(texts: set<string>) {
      && (forall t | t in texts :: IsContentHash(digest(Normal(t))))
      && (forall t, u | t in texts && u in texts && digest(Normal(t)) == digest(Normal(u)) :: Normal(t) == Normal(u))
    }

    method ContentTokens(text: string) returns (tokens: seq<string>)
      ensures tokens == Tokens(text)
      ensures forall t | t in tokens :: IsWord(t)
    {
      var fields := Fields(Lowered(text));
      tokens := [];
      for i := 0 to |fields|
        invariant tokens == KeepTrimmed(fields[..i])
      {
        assert fields[..i + 1][..i] == fields[..i];
        var f := Trim(fields[i]);
        if f != "" {
          tokens := tokens + [f];
        }
      }
      assert fields[..|fields|] == fields;
      TokensAreWords(text);
    }

    lemma TokensAreWords(text: string)
      ensures forall t | t in Tokens(text) :: IsWord(t) && Trim(t) == t
    {
      KeptAreWords(Fields(Lowered(text)));
    }

    /** A character that lower-cases to white space separates tokens. */
    lemma TokensSplit(a: string, c: char, b: string)
      requires IsSpace(lower(c))
      ensures Tokens(a + [c] + b) == Tokens(a) + Tokens(b)
    {
      assert Lowered(a + [c] + b) == Lowered(a) + [lower(c)] + Lowered(b);
      FieldsSplit(Lowered(a), lower(c), Lowered(b));
      KeptSplit(Fields(Lowered(a)), Fields(Lowered(b)));
    }

    /** A text that lower-cases to one word is one token, without the punctuation at its ends, or none. */
    lemma OneToken(word: string)
      requires IsWord(Lowered(word))
      ensures Tokens(word) == if Trim(Lowered(word)) == "" then [] else [Trim(Lowered(word))]
    {
      OneField(Lowered(word));
      assert KeepTrimmed([]) == [] && [Lowered(word)][..0] == [];
    }

    /** Joining with one space loses nothing: equal normal forms mean equal token lists. */
    lemma NormalFormIsFaithful(a: string, b: string)
      ensures Normal(a) == Normal(b) <==> Tokens(a) == Tokens(b)
      ensures Normal(a) == "" <==> Tokens(a) == []
    {
      TokensAreWords(a);
      TokensAreWords(b);
      FieldsOfJoin(Tokens(a));
      FieldsOfJoin(Tokens(b));
    }

    /** The duplicate check and the token comparison never disagree. */
    lemma HashAgreesWithTokens(a: string, b: string, texts: set<string>)
      requires CollisionFree(texts) && a in texts && b in texts
      ensures Hash(a) == Hash(b) <==> Tokens(a) == Tokens(b)
      ensures IsContentHash(Hash(a)) <==> Tokens(a) != []
    {
      NormalFormIsFaithful(a, b);
      NormalFormIsFaithful(b, a);
      assert IsContentHash(digest(Normal(a))) && IsContentHash(digest(Normal(b)));
    }

    /** Tokenizing a normal form changes nothing, so re-ingesting one is a restatement. */
    lemma NormalFormIsStable(text: string)
      requires lower(' ') == ' ' && forall c :: lower(lower(c)) == lower(c)
      ensures Tokens(Normal(text)) == Tokens(text)
      ensures Hash(Normal(text)) == Hash(text)
    {
      var ts := Tokens(text);
      TokensAreWords(text);
      TokenCharacters(text);
      forall t, c | t in ts && c in t ensures lower(c) == c {
        assert c in Lowered(text);
      }
      LoweredJoin(ts);
      FieldsOfJoin(ts);
      assert forall k | 0 <= k < |ts| :: ts[k] in ts;
      TrimmedAreKept(ts);
    }

    lemma {:induction false} LoweredJoin(words: seq<string>)
      requires lower(' ') == ' ' && forall w, c | w in words && c in w :: lower(c) == c
      ensures Lowered(Join(words)) == Join(words)
    {
      if |words| > 1 {
        LoweredJoin(words[1..]);
        var rest := Join(words[1..]);
        assert forall i | 0 <= i < |rest| :: lower(rest[i]) == Lowered(rest)[i];
        assert forall i | 0 <= i < |words[0]| :: words[0][i] in words[0];
      } else if |words| == 1 {
        assert forall i | 0 <= i < |words[0]| :: words[0][i] in words[0];
      }
    }

    lemma TokenCharacters(text: string)
      ensures forall t, c | t in Tokens(text) && c in t :: c in Lowered(text)
    {
      KeptCharacters(Fields(Lowered(text)));
      FieldCharacters(Lowered(text));
    }
  }

  lemma {:induction false} KeptAreWords(fields: seq<string>)
    requires forall f | f in fields :: IsWord(f)
    ensures forall t | t in KeepTrimmed(fields) :: IsWord(t) && Trim(t) == t
  {
    if fields != [] {
      var last := fields[|fields| - 1];
      KeptAreWords(fields[..|fields| - 1]);
      TrimOnce(last);
      assert IsWord(last);
    }
  }

  lemma {:induction false} OneField(word: string)
    requires IsWord(word)
    ensures Fields(word) == [word]
  {
    WordPrefix(word, "");
    assert word + "" == word;
    assert word[..|word|] == word && word[|word|..] == "";
    assert !IsSpace(word[0]);
  }

  lemma {:induction false} FieldsSplit(a: string, c: char, b: string)
    requires IsSpace(c)
    ensures Fields(a + [c] + b) == Fields(a) + Fields(b)
    decreases |a|
  {
    var s := a + [c] + b;
    if a == "" {
      assert s[1..] == b;
    } else if IsSpace(a[0]) {
      assert s[1..] == a[1..] + [c] + b;
      FieldsSplit(a[1..], c, b);
    } else {
      var n := WordLength(a);
      var word, later := a[..n], a[n..];
      var rest := later + [c] + b;
      assert word + rest == s;
      WordPrefix(word, rest);
      assert s[..n] == word && s[n..] == rest;
      FieldsSplit(later, c, b);
      assert Fields(a) == [word] + Fields(later) && Fields(s) == [word] + Fields(rest);
    }
  }

  lemma KeptNext(fields: seq<string>, f: string)
    ensures KeepTrimmed(fields + [f]) == KeepTrimmed(fields) + if Trim(f) == "" then [] else [Trim(f)]
  {
    assert (fields + [f])[..|fields|] == fields;
  }

  ghost predicate Appends(kept: seq<string> -> seq<string>, one: string -> seq<string>, fields: seq<string>, f: string)
  {
    kept(fields + [f]) == kept(fields) + one(f)
  }

  lemma {:induction false} Splits(kept: seq<string> -> seq<string>, one: string -> seq<string>, a: seq<string>,
                                  b: seq<string>)
    requires kept([]) == [] && forall fields, f :: Appends(kept, one, fields, f)
    ensures kept(a + b) == kept(a) + kept(b)
  {
    if b == [] {
      assert a + b == a;
    } else {
      var front, f := b[..|b| - 1], b[|b| - 1];
      Splits(kept, one, a, front);
      assert Appends(kept, one, a + front, f) && Appends(kept, one, front, f);
      assert a + b == a + front + [f] && b == front + [f];
    }
  }

  lemma KeptSplit(a: seq<string>, b: seq<string>)
    ensures KeepTrimmed(a + b) == KeepTrimmed(a) + KeepTrimmed(b)
  {
    var one := (f: string) => if Trim(f) == "" then [] else [Trim(f)];
    forall fields, f ensures Appends(KeepTrimmed, one, fields, f) {
      KeptNext(fields, f);
    }
    Splits(KeepTrimmed, one, a, b);
  }

  predicate Punctuation(s: string) {
    forall c | c in s :: c in ".,;:!?\"'()[]{}<>"
  }

  predicate Bare(s: string) {
    s == "" || (s[0] !in EDGE_PUNCTUATION && s[|s| - 1] !in EDGE_PUNCTUATION)
  }

  /** Only punctuation is trimmed, from both ends, and all of it. */
  lemma TrimCutsPunctuation(s: string) returns (l: string, r: string)
    ensures s == l + Trim(s) + r && Punctuation(l) && Punctuation(r) && Bare(Trim(s))
  {
    var t := TrimLeft(s);
    l := CutLeft(s);
    r := CutRight(t);
    BareWhenTrimmed(s);
    Concats(l, TrimRight(t), r);
  }

  lemma Concats(a: string, b: string, c: string)
    ensures a + (b + c) == a + b + c
  {
  }

  lemma BareWhenTrimmed(s: string)
    ensures Bare(Trim(s))
  {
    assert Trim(s) == "" || Trim(s)[0] == TrimLeft(s)[0];
  }

  lemma {:induction false} CutLeft(s: string) returns (l: string)
    ensures s == l + TrimLeft(s) && Punctuation(l)
  {
    if s != "" && s[0] in EDGE_PUNCTUATION {
      l := CutLeft(s[1..]);
      l := [s[0]] + l;
    } else {
      l := "";
    }
  }

  lemma {:induction false} CutRight(s: string) returns (r: string)
    ensures s == TrimRight(s) + r && Punctuation(r)
  {
    if s != "" && s[|s| - 1] in EDGE_PUNCTUATION {
      var front, last := s[..|s| - 1], s[|s| - 1];
      var cut := CutRight(front);
      r := cut + [last];
      Concats(TrimRight(front), cut, [last]);
      assert s == front + [last];
    } else {
      r := "";
    }
  }

  lemma TrimOnce(s: string)
    ensures Trim(Trim(s)) == Trim(s)
    ensures forall c | c in Trim(s) :: c in s
  {
    var l := TrimLeft(s);
    assert Trim(s) == "" || Trim(s)[0] == l[0];
  }

  lemma {:induction false} KeptCharacters(fields: seq<string>)
    ensures forall t, c | t in KeepTrimmed(fields) && c in t :: exists f :: f in fields && c in f
  {
    if fields != [] {
      var front, last := fields[..|fields| - 1], fields[|fields| - 1];
      KeptCharacters(front);
      TrimOnce(last);
      forall t, c | t in KeepTrimmed(fields) && c in t ensures exists f :: f in fields && c in f {
        if t in KeepTrimmed(front) {
          var f :| f in front && c in f;
          assert f in fields;
        } else {
          assert last in fields && c in last;
        }
      }
    }
  }

  lemma {:induction false} FieldCharacters(s: string)
    ensures forall f, c | f in Fields(s) && c in f :: c in s
    decreases |s|
  {
    if s != "" {
      if IsSpace(s[0]) { FieldCharacters(s[1..]); } else { FieldCharacters(s[WordLength(s)..]); }
    }
  }

  lemma {:induction false} Fixes(kept: seq<string> -> seq<string>, one: string -> seq<string>, words: seq<string>)
    requires kept([]) == [] && forall fields, f :: Appends(kept, one, fields, f)
    requires forall k | 0 <= k < |words| :: one(words[k]) == [words[k]]
    ensures kept(words) == words
  {
    if words != [] {
      var front, last := words[..|words| - 1], words[|words| - 1];
      Fixes(kept, one, front);
      assert Appends(kept, one, front, last) && words == front + [last];
    }
  }

  lemma TrimmedAreKept(words: seq<string>)
    requires forall k | 0 <= k < |words| :: words[k] != "" && Trim(words[k]) == words[k]
    ensures KeepTrimmed(words) == words
  {
    var one := (f: string) => if Trim(f) == "" then [] else [Trim(f)];
    forall fields, f ensures Appends(KeepTrimmed, one, fields, f) {
      KeptNext(fields, f);
    }
    Fixes(KeepTrimmed, one, words);
  }

  lemma {:induction false} WordPrefix(w: string, rest: string)
    requires forall c | c in w :: !IsSpace(c)
    requires rest == "" || IsSpace(rest[0])
    ensures WordLength(w + rest) == |w|
  {
    if w == "" {
      assert w + rest == rest;
    } else {
      assert (w + rest)[1..] == w[1..] + rest;
      WordPrefix(w[1..], rest);
    }
  }

  /** Splitting undoes joining on words, so joining is injective on them. */
  lemma {:induction false} FieldsOfJoin(words: seq<string>)
    requires forall w | w in words :: IsWord(w)
    ensures Fields(Join(words)) == words
    ensures Join(words) == "" <==> words == []
  {
    if words != [] {
      var w := words[0];
      assert IsWord(w) && words == [w] + words[1..];
      FieldsOfJoin(words[1..]);
      var rest := if |words| == 1 then "" else " " + Join(words[1..]);
      WordPrefix(w, rest);
      assert Join(words) == w + rest;
      assert (w + rest)[..|w|] == w && (w + rest)[|w|..] == rest;
      if |words| > 1 {
        assert rest[1..] == Join(words[1..]);
      }
    }
  }
}
