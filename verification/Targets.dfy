/** Target-pattern normalisation and overlap, as the stagger gate does it. */
module Targets {

  /** The white space that splits fields: Go's unicode.IsSpace. */
  predicate IsSpace(c: char) {
    c == '\t' || c == '\n' || c == '\U{0B}' || c == '\U{0C}' || c == '\r' || c == ' '
    || c == '\U{85}' || c == '\U{A0}' || c == '\U{1680}' || '\U{2000}' <= c <= '\U{200A}'
    || c == '\U{2028}' || c == '\U{2029}' || c == '\U{202F}' || c == '\U{205F}' || c == '\U{3000}'
  }

  /** Length of the longest prefix without white space. */
  function WordLength(s: string): (n: nat)
    ensures n <= |s|
    ensures forall i | 0 <= i < n :: !IsSpace(s[i])
    ensures n < |s| ==> IsSpace(s[n])
  {
    if s == [] || IsSpace(s[0]) then 0 else 1 + WordLength(s[1..])
  }

  /** The maximal runs of non-space characters, in order. */
  function Fields(s: string): seq<string>
    decreases |s|
  {
    if s == [] then []
    else if IsSpace(s[0]) then Fields(s[1..])
    else [s[..WordLength(s)]] + Fields(s[WordLength(s)..])
  }

  const REPO_PREFIX := "@//"

  /** The whole repository prefix is removed, slashes included. */
  function TrimRepoPrefix(t: string): string {
    if REPO_PREFIX <= t then t[|REPO_PREFIX|..] else t
  }

  function FieldSet(raw: string): set<string> {
    set f | f in Fields(raw) && TrimRepoPrefix(f) != "" :: TrimRepoPrefix(f)
  }

  function ToSet(targets: set<string>): set<string> {
    set raw, f | raw in targets && f in FieldSet(raw) :: f
  }

  function Elements(ts: seq<string>): set<string> {
    set t | t in ts
  }

  function Normalised(raw: string): set<string> {
    ToSet({raw})
  }

  predicate Overlap(a: set<string>, b: set<string>) {
    !(a !! b)
  }

  lemma NormalisedIsFieldSet(raw: string)
    ensures Normalised(raw) == FieldSet(raw)
  {
  }

  predicate IsWord(s: string) {
    s != "" && forall i | 0 <= i < |s| :: !IsSpace(s[i])
  }

  lemma WordIsOneField(s: string)
    requires IsWord(s)
    ensures Fields(s) == [s]
  {
    var n := WordLength(s);
    assert n == |s|;
    assert s[..n] == s && s[n..] == "";
  }

  /**
   * The two spellings of one label never meet: the prefixed spelling loses its slashes while the
   * plain one keeps them, so a build of `@//x` is not staggered behind a build of `//x`.
   */
  lemma PrefixedSpellingDoesNotOverlap(x: string)
    requires IsWord(x)
    ensures Normalised("@//" + x) == {x}
    ensures Normalised("//" + x) == {"//" + x}
    ensures !Overlap(Normalised("@//" + x), Normalised("//" + x))
  {
    WordIsOneField("@//" + x);
    WordIsOneField("//" + x);
    assert ("@//" + x)[3..] == x;
    assert TrimRepoPrefix("@//" + x) == x;
    assert TrimRepoPrefix("//" + x) == "//" + x;
    assert FieldSet("@//" + x) == {x};
    assert FieldSet("//" + x) == {"//" + x};
    NormalisedIsFieldSet("@//" + x);
    NormalisedIsFieldSet("//" + x);
    assert |x| != |"//" + x|;
  }

  // ---- every word is found ----

  predicate IsGap(s: string) {
    forall i | 0 <= i < |s| :: IsSpace(s[i])
  }

  /** One gap more than there are words; the inner ones are not empty. */
  predicate Separates(gaps: seq<string>, words: seq<string>) {
    && |gaps| == |words| + 1
    && (forall i | 0 <= i < |gaps| :: IsGap(gaps[i]))
    && (forall i | 0 < i < |words| :: gaps[i] != "")
  }

  /** The words with the gaps around and between them. */
  function Text(gaps: seq<string>, words: seq<string>): string
    requires |gaps| == |words| + 1
  {
    if words == [] then gaps[0] else gaps[0] + words[0] + Text(gaps[1..], words[1..])
  }

  lemma {:induction false} FieldsSkipGap(gap: string, s: string)
    requires IsGap(gap)
    ensures Fields(gap + s) == Fields(s)
  {
    if gap == "" {
      assert gap + s == s;
    } else {
      assert (gap + s)[1..] == gap[1..] + s;
      FieldsSkipGap(gap[1..], s);
    }
  }

  lemma {:induction false} WordLengthAt(word: string, s: string)
    requires IsWord(word) && (s == "" || IsSpace(s[0]))
    ensures WordLength(word + s) == |word|
  {
    if |word| == 1 {
      assert (word + s)[1..] == s;
    } else {
      assert (word + s)[1..] == word[1..] + s;
      WordLengthAt(word[1..], s);
    }
  }

  lemma FieldsTakeWord(word: string, s: string)
    requires IsWord(word) && (s == "" || IsSpace(s[0]))
    ensures Fields(word + s) == [word] + Fields(s)
  {
    WordLengthAt(word, s);
    assert (word + s)[..|word|] == word && (word + s)[|word|..] == s;
  }

  /** Splitting a text gives exactly the words it was made of, whatever white space separates them. */
  lemma {:induction false} FieldsOfText(gaps: seq<string>, words: seq<string>)
    requires Separates(gaps, words) && forall w | w in words :: IsWord(w)
    ensures Fields(Text(gaps, words)) == words
    decreases |words|
  {
    if words == [] {
      assert gaps[0] + "" == gaps[0];
      FieldsSkipGap(gaps[0], "");
    } else {
      var rest := Text(gaps[1..], words[1..]);
      assert Separates(gaps[1..], words[1..]);
      FieldsOfText(gaps[1..], words[1..]);
      TextStartsWithItsGap(gaps[1..], words[1..]);
      assert gaps[0] + words[0] + rest == gaps[0] + (words[0] + rest);
      FieldsSkipGap(gaps[0], words[0] + rest);
      FieldsTakeWord(words[0], rest);
    }
  }

  lemma TextStartsWithItsGap(gaps: seq<string>, words: seq<string>)
    requires |gaps| == |words| + 1 && IsGap(gaps[0]) && (words != [] ==> gaps[0] != "")
    ensures Text(gaps, words) == "" || IsSpace(Text(gaps, words)[0])
  {
  }

  /** And every text is made of its words in that way, so nothing in it is lost or made up. */
  lemma {:induction false} TextOfFields(s: string) returns (gaps: seq<string>)
    ensures Separates(gaps, Fields(s)) && Text(gaps, Fields(s)) == s
    ensures forall f | f in Fields(s) :: IsWord(f)
    ensures s != "" && !IsSpace(s[0]) ==> gaps[0] == ""
    ensures s != "" && IsSpace(s[0]) ==> gaps[0] != ""
    decreases |s|
  {
    if s == "" {
      gaps := [""];
    } else if IsSpace(s[0]) {
      var rest := TextOfFields(s[1..]);
      gaps := [[s[0]] + rest[0]] + rest[1..];
      assert s == [s[0]] + s[1..] && Fields(s) == Fields(s[1..]);
      hide Fields, Text, Separates, IsGap, IsWord;
      GapGrows(s[0], rest, Fields(s));
    } else {
      var n := WordLength(s);
      var rest := TextOfFields(s[n..]);
      gaps := [""] + rest;
      assert s == s[..n] + s[n..] && Fields(s) == [s[..n]] + Fields(s[n..]);
      assert s[n..] == "" ==> Fields(s[n..]) == [];
      assert IsWord(s[..n]);
      hide Fields, Text, Separates, IsWord, IsGap;
      WordThenText(s[..n], rest, Fields(s[n..]));
    }
  }

  lemma WordThenText(word: string, gaps: seq<string>, words: seq<string>)
    requires Separates(gaps, words) && (words != [] ==> gaps[0] != "")
    ensures Separates([""] + gaps, [word] + words) && Text([""] + gaps, [word] + words) == word + Text(gaps, words)
  {
    assert ([""] + gaps)[1..] == gaps && ([word] + words)[1..] == words;
    assert "" + word + Text(gaps, words) == word + Text(gaps, words);
  }

  lemma GapGrows(c: char, gaps: seq<string>, words: seq<string>)
    requires Separates(gaps, words) && IsSpace(c)
    ensures Separates([[c] + gaps[0]] + gaps[1..], words)
    ensures Text([[c] + gaps[0]] + gaps[1..], words) == [c] + Text(gaps, words)
  {
    var grown := [[c] + gaps[0]] + gaps[1..];
    assert grown[1..] == gaps[1..];
    if words != [] {
      assert [c] + gaps[0] + words[0] + Text(gaps[1..], words[1..]) == [c] + (gaps[0] + words[0] + Text(gaps[1..], words[1..]));
    }
  }

  lemma {:induction false} FieldsConcat(a: string, c: char, b: string)
    requires IsSpace(c)
    ensures Fields(a + [c] + b) == Fields(a) + Fields(b)
    decreases |a|
  {
    var s := a + [c] + b;
    if a == "" {
      assert s[1..] == b;
    } else if IsSpace(a[0]) {
      assert s[1..] == a[1..] + [c] + b;
      FieldsConcat(a[1..], c, b);
    } else {
      var n := WordLength(a);
      var word, rest := a[..n], a[n..];
      assert a == word + rest && s == word + (rest + [c] + b);
      FieldsTakeWord(word, rest);
      FieldsTakeWord(word, rest + [c] + b);
      FieldsConcat(rest, c, b);
    }
  }

  /** The targets of two requests written one after the other are those of both. */
  lemma NormalisedOfBoth(a: string, c: char, b: string)
    requires IsSpace(c)
    ensures Normalised(a + [c] + b) == Normalised(a) + Normalised(b)
  {
    FieldsConcat(a, c, b);
    NormalisedIsFieldSet(a);
    NormalisedIsFieldSet(b);
    NormalisedIsFieldSet(a + [c] + b);
  }

  /** A name is a target exactly if it, not beginning with the repository prefix, or its prefixed form is a word of the request. */
  lemma NormalisedExactly(gaps: seq<string>, words: seq<string>, t: string)
    requires Separates(gaps, words) && forall w | w in words :: IsWord(w)
    ensures t in Normalised(Text(gaps, words)) <==>
      t != "" && ((t in words && !("@//" <= t)) || "@//" + t in words)
  {
    var raw := Text(gaps, words);
    FieldsOfText(gaps, words);
    NormalisedIsFieldSet(raw);
    if t in FieldSet(raw) {
      var f :| f in words && TrimRepoPrefix(f) != "" && TrimRepoPrefix(f) == t;
      if "@//" <= f {
        assert f == f[..3] + f[3..] == "@//" + t;
      }
    }
    assert ("@//" + t)[3..] == t;
    if t != "" && "@//" + t in words {
      assert TrimRepoPrefix("@//" + t) == t;
    }
    if t != "" && t in words && !("@//" <= t) {
      assert TrimRepoPrefix(t) == t;
    }
  }

  /** Go's fields are separated by these among others, and by none of the characters of a label. */
  lemma UsualSeparators(c: char)
    ensures c in " \t\n\r" ==> IsSpace(c)
    ensures '!' <= c <= '~' ==> !IsSpace(c)
  {
  }

  lemma FieldsAreWords(s: string)
    ensures forall f | f in Fields(s) :: IsWord(f)
  {
    var gaps := TextOfFields(s);
  }

  /** Normalised names are never empty and never contain white space. */
  lemma NormalisedAreWords(targets: set<string>)
    ensures forall f | f in ToSet(targets) :: IsWord(f)
  {
    forall f | f in ToSet(targets)
      ensures IsWord(f)
    {
      var raw :| raw in targets && f in FieldSet(raw);
      FieldsAreWords(raw);
    }
  }

  /** toSet: the nested loops that fill the output map. */
  method CollectTargets(targets: seq<string>) returns (out: set<string>)
    ensures out == ToSet(Elements(targets))
  {
    out := {};
    for i := 0 to |targets|
      invariant out == ToSet(Elements(targets[..i]))
    {
      var fields := Fields(targets[i]);
      ghost var before := out;
      for j := 0 to |fields|
        invariant out == before + (set f | f in fields[..j] && TrimRepoPrefix(f) != "" :: TrimRepoPrefix(f))
      {
        var t := TrimRepoPrefix(fields[j]);
        assert fields[..j + 1] == fields[..j] + [fields[j]];
        if t != "" {
          out := out + {t};
        }
      }
      assert fields[..|fields|] == fields;
      assert out == before + FieldSet(targets[i]);
      assert targets[..i + 1] == targets[..i] + [targets[i]];
      assert Elements(targets[..i + 1]) == Elements(targets[..i]) + {targets[i]};
      ToSetAdd(Elements(targets[..i]), targets[i]);
    }
    assert targets[..|targets|] == targets;
  }

  lemma ToSetAdd(ts: set<string>, t: string)
    ensures ToSet(ts + {t}) == ToSet(ts) + FieldSet(t)
  {
  }

  /** overlaps: walk the smaller set and look each element up in the other. */
  method ShareElement(a: set<string>, b: set<string>) returns (r: bool)
    ensures r <==> exists k :: k in a && k in b
    ensures r <==> Overlap(a, b)
  {
    var small, large := a, b;
    if |b| < |a| {
      small, large := b, a;
    }
    var rest := small;
    while rest != {}
      invariant rest <= small
      invariant (small - rest) !! large
      decreases rest
    {
      var k :| k in rest;
      if k in large {
        return true;
      }
      rest := rest - {k};
    }
    return false;
  }
}
