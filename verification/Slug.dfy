/** Slug normalisation and the bounded search for a free slug (`oopsie/utils/slug.py`). */
module Slug {
  import Sets
  import opened Text
  import opened Wrappers

  /** The two Unicode tables a slug depends on: lower-casing, and what `\w` matches. Lower-casing is of a
      whole text because that of some letters depends on what stands around them. */
  datatype Alphabet = Alphabet(lower: string -> string, word: char -> bool)

  /** The character is its own lower case. */
  predicate IsLower(a: Alphabet, c: char) {
    a.lower([c]) == [c]
  }

  /** What the code needs of the tables: lower-casing leaves only lower-case characters and leaves those
      alone; digits and the letters of the fallback slug are lower-case word characters, and so is '-' lower case. */
  ghost predicate Lawful(a: Alphabet) {
    && (forall s, c :: c in a.lower(s) ==> IsLower(a, c))
    && (forall s :: (forall c :: c in s ==> IsLower(a, c)) ==> a.lower(s) == s)
    && IsLower(a, '-')
    && (forall c :: '0' <= c <= '9' || c in "default" ==> a.word(c) && IsLower(a, c))
  }

  predicate Sep(c: char) {
    IsSpace(c) || c == '_' || c == '-'
  }

  /** `re.sub(r"[^\w\s-]", "", s)`. */
  function Keep(a: Alphabet, s: string): string {
    if s == "" then "" else
      (if a.word(s[0]) || IsSpace(s[0]) || s[0] == '-' then [s[0]] else "") + Keep(a, s[1..])
  }

  /** `re.sub(r"[\s_-]+", "-", s)`: each maximal run of separators becomes one hyphen. */
  function Collapse(s: string): string {
    if s == "" then ""
    else if !Sep(s[0]) then [s[0]] + Collapse(s[1..])
    else if |s| > 1 && Sep(s[1]) then Collapse(s[1..])
    else "-" + Collapse(s[1..])
  }

  predicate IsHyphen(c: char) { c == '-' }

  function Slugify(a: Alphabet, name: string): string {
    var slug := Strip(a.lower(name));
    var kept := Keep(a, slug);
    var joined := Collapse(kept);
    var r := Trim(IsHyphen, joined);
    if r == "" then "default" else r
  }

  // ----- The normal form -----

  /** Nonempty, no hyphen at either end, no doubled hyphen, otherwise lower-case word characters. */
  ghost predicate IsSlug(a: Alphabet, s: string) {
    && s != "" && s[0] != '-' && s[|s| - 1] != '-'
    && NoDouble(s)
    && (forall c :: c in s ==> c == '-' || SlugChar(a, c))
  }

  ghost predicate SlugChar(a: Alphabet, c: char) {
    a.word(c) && c != '-' && c != '_' && !IsSpace(c) && IsLower(a, c)
  }

  // ----- Reference definition: the words of the name, joined by single hyphens -----

  /** The maximal runs of non-separators. */
  function Words(s: string): (r: seq<string>)
    ensures s != "" && !Sep(s[0]) ==> r != []
  {
    if s == "" then []
    else if Sep(s[0]) then Words(s[1..])
    else
      var rest := Words(s[1..]);
      if |s| > 1 && !Sep(s[1]) then [[s[0]] + rest[0]] + rest[1..] else [[s[0]]] + rest
  }

  /** Every word is a nonempty piece of the text without separators. */
  ghost predicate Pieces(ws: seq<string>, s: string) {
    forall w :: w in ws ==> w != "" && forall c :: c in w ==> c in s && !Sep(c)
  }

  lemma {:induction false} WordsArePieces(s: string)
    ensures Pieces(Words(s), s)
  {
    if s == "" {
    } else {
      var rest := Words(s[1..]);
      WordsArePieces(s[1..]);
      forall w | w in Words(s) ensures w != "" && forall c :: c in w ==> c in s && !Sep(c) {
        if w !in rest {
          assert rest != [] ==> rest[0] in rest;
        }
      }
    }
  }

  function Join(ws: seq<string>): string {
    if ws == [] then "" else if |ws| == 1 then ws[0] else ws[0] + "-" + Join(ws[1..])
  }

  ghost predicate NoDouble(s: string) {
    forall i :: 0 <= i < |s| - 1 ==> s[i] != '-' || s[i + 1] != '-'
  }

  lemma NoDoubleAppend(s: string, t: string)
    requires NoDouble(s) && NoDouble(t)
    requires s != "" && t != "" ==> s[|s| - 1] != '-' || t[0] != '-'
    ensures NoDouble(s + t)
  {
    forall i | 0 <= i < |s + t| - 1 ensures (s + t)[i] != '-' || (s + t)[i + 1] != '-' {
      if i >= |s| {
        assert (s + t)[i] == t[i - |s|] && (s + t)[i + 1] == t[i + 1 - |s|];
      }
    }
  }

  lemma {:induction false} JoinShape(ws: seq<string>, text: string)
    requires Pieces(ws, text)
    ensures ws != [] ==> Join(ws) != "" && !Sep(Join(ws)[0]) && !Sep(Join(ws)[|Join(ws)| - 1])
    ensures NoDouble(Join(ws))
    ensures forall c :: c in Join(ws) ==> c == '-' || (c in text && !Sep(c))
  {
    if ws != [] {
      var w := ws[0];
      assert w in ws && w[0] in w && w[|w| - 1] in w;
      assert NoDouble(w) by {
        forall i | 0 <= i < |w| - 1 ensures w[i] != '-' {
          assert w[i] in w;
        }
      }
      if |ws| > 1 {
        assert forall v :: v in ws[1..] ==> v in ws;
        JoinShape(ws[1..], text);
        NoDoubleAppend(w, "-");
        NoDoubleAppend(w + "-", Join(ws[1..]));
      }
    }
  }

  function Edge(present: bool): string { if present then "-" else "" }

  lemma {:induction false} CollapseJoinsWords(s: string)
    requires s != ""
    ensures Collapse(s) == Joined(s)
  {
    if |s| == 1 {
      assert s[1..] == "";
    } else {
      var t := s[1..];
      CollapseJoinsWords(t);
      assert t[|t| - 1] == s[|s| - 1];
      if Sep(s[0]) {
        JoinedAfterSep(s);
      } else {
        JoinedAfterLetter(s);
      }
    }
  }

  function Joined(s: string): string
    requires s != ""
  {
    if Words(s) == [] then "-"
    else Edge(Sep(s[0])) + Join(Words(s)) + Edge(Sep(s[|s| - 1]))
  }

  lemma JoinedAfterSep(s: string)
    requires |s| > 1 && Sep(s[0])
    ensures Joined(s) == if Sep(s[1]) then Joined(s[1..]) else "-" + Joined(s[1..])
  {
    var t := s[1..];
    assert Words(s) == Words(t) && t[|t| - 1] == s[|s| - 1];
    assert "" + Join(Words(t)) == Join(Words(t));
  }

  lemma JoinedAfterLetter(s: string)
    requires |s| > 1 && !Sep(s[0])
    ensures Joined(s) == [s[0]] + Joined(s[1..])
  {
    var t := s[1..];
    var rest := Words(t);
    var last := Edge(Sep(s[|s| - 1]));
    assert t[|t| - 1] == s[|s| - 1];
    if !Sep(t[0]) {
      assert Join(Words(s)) == [s[0]] + Join(rest);
      assert Edge(false) + Join(Words(s)) + last == [s[0]] + (Edge(false) + Join(rest) + last);
    } else if rest != [] {
      assert Words(s) == [[s[0]]] + rest && Words(s)[1..] == rest;
      assert Join(Words(s)) == [s[0]] + "-" + Join(rest);
      assert Edge(false) + Join(Words(s)) + last == [s[0]] + ("-" + Join(rest) + last);
    } else {
      NoWordsAllSeps(t);
      assert t[|t| - 1] in t;
      assert Words(s) == [[s[0]]];
    }
  }

  lemma {:induction false} NoWordsAllSeps(s: string)
    ensures Words(s) == [] <==> forall c :: c in s ==> Sep(c)
  {
    if s == "" {
    } else if !Sep(s[0]) {
      assert s[0] in s;
    } else {
      NoWordsAllSeps(s[1..]);
      assert s == [s[0]] + s[1..];
    }
  }

  /** What a slug says about a name: its words, in order, joined by single hyphens. */
  lemma SlugifyJoinsWords(a: Alphabet, name: string)
    ensures var ws := Words(Keep(a, Strip(a.lower(name))));
      Slugify(a, name) == if ws == [] then "default" else Join(ws)
  {
    var kept := Keep(a, Strip(a.lower(name)));
    var ws := Words(kept);
    if kept != "" {
      CollapseJoinsWords(kept);
      if ws != [] {
        WordsArePieces(kept);
        JoinShape(ws, kept);
        TrimAround(IsHyphen, Edge(Sep(kept[0])), Join(ws), Edge(Sep(kept[|kept| - 1])));
      } else {
        TrimAll(IsHyphen, "-");
      }
    }
  }

  lemma {:induction false} KeepSelects(a: Alphabet, s: string)
    ensures forall c :: c in Keep(a, s) ==> c in s && (a.word(c) || Sep(c))
  {
    if s != "" {
      KeepSelects(a, s[1..]);
    }
  }

  /** Exactly the word characters, the white space and the hyphens of a text survive, in their order. */
  predicate Kept(a: Alphabet, c: char) {
    a.word(c) || IsSpace(c) || c == '-'
  }

  lemma {:induction false} KeepSplits(a: Alphabet, left: string, right: string)
    ensures Keep(a, left + right) == Keep(a, left) + Keep(a, right)
  {
    if left == "" {
      assert left + right == right;
    } else {
      assert (left + right)[1..] == left[1..] + right;
      KeepSplits(a, left[1..], right);
    }
  }

  lemma {:induction false} KeepsExactly(a: Alphabet, left: string, c: char, right: string)
    ensures Keep(a, left + [c] + right) == Keep(a, left) + (if Kept(a, c) then [c] else "") + Keep(a, right)
  {
    KeepSplits(a, left + [c], right);
    KeepSplits(a, left, [c]);
    assert [c][1..] == "";
    assert Keep(a, [c]) == if Kept(a, c) then [c] else "";
  }

  /** A text of lower-case letters and gaps is left alone until its gaps are closed. */
  lemma CleanTextStays(a: Alphabet, name: string)
    requires Lawful(a) && name != "" && !IsSpace(name[0]) && !IsSpace(name[|name| - 1])
    requires forall c :: c in name ==> IsLower(a, c) && Kept(a, c)
    ensures Keep(a, Strip(a.lower(name))) == name
  {
    assert a.lower(name) == name;
    assert "" + name + "" == name;
    TrimAround(IsSpace, "", name, "");
    KeepsAll(a, name);
  }

  predicate Gap(a: Alphabet, gap: string) {
    gap != "" && forall c :: c in gap ==> (IsSpace(c) || c == '_' || c == '-') && IsLower(a, c) && Kept(a, c)
  }

  ghost predicate Word(a: Alphabet, word: string) {
    word != "" && forall c :: c in word ==> SlugChar(a, c)
  }

  lemma TwoWords(left: string, gap: string, right: string)
    requires left != "" && gap != "" && right != ""
    requires (forall c :: c in left ==> !Sep(c)) && (forall c :: c in gap ==> Sep(c)) && (forall c :: c in right ==> !Sep(c))
    ensures Words(left + gap + right) == [left, right]
  {
    assert gap[0] in gap;
    WordsOf(left, gap + right);
    assert left + (gap + right) == left + gap + right;
    GapSkipped(gap, right);
    WordsOf(right, "");
    assert right + "" == right;
    assert [left] + [right] == [left, right];
  }

  lemma JoinTwo(left: string, right: string)
    ensures Join([left, right]) == left + "-" + right
  {
    assert [left, right][1..] == [right];
  }

  /** Two words with any white space, underscores or hyphens between them become the two words with one hyphen
      between them. */
  lemma TwoWordsOneHyphen(a: Alphabet, left: string, gap: string, right: string)
    requires Lawful(a) && Word(a, left) && Gap(a, gap) && Word(a, right)
    ensures Slugify(a, left + gap + right) == left + "-" + right
  {
    var name := left + gap + right;
    forall c | c in name ensures IsLower(a, c) && Kept(a, c) {
      assert c in left || c in gap || c in right;
    }
    assert left[0] in left && right[|right| - 1] in right;
    assert name[0] == left[0] && name[|name| - 1] == right[|right| - 1];
    CleanTextStays(a, name);
    TwoWords(left, gap, right);
    JoinTwo(left, right);
    SlugifyJoinsWords(a, name);
  }

  lemma {:induction false} KeepsAll(a: Alphabet, s: string)
    requires forall c :: c in s ==> Kept(a, c)
    ensures Keep(a, s) == s
  {
    if s != "" {
      assert s[0] in s && s == [s[0]] + s[1..];
      assert forall c :: c in s[1..] ==> c in s;
      KeepsAll(a, s[1..]);
    }
  }

  lemma {:induction false} WordsOf(word: string, rest: string)
    requires word != "" && (forall c :: c in word ==> !Sep(c)) && (rest == "" || Sep(rest[0]))
    ensures Words(word + rest) == [word] + Words(rest)
  {
    var s := word + rest;
    assert word[0] in word && s[1..] == word[1..] + rest;
    if |word| == 1 {
      assert s[1..] == rest && word == [s[0]];
    } else {
      assert word[1] in word && s[1] == word[1];
      assert forall c :: c in word[1..] ==> c in word;
      WordsOf(word[1..], rest);
      assert word == [s[0]] + word[1..];
    }
  }

  lemma {:induction false} GapSkipped(gap: string, rest: string)
    requires forall c :: c in gap ==> Sep(c)
    ensures Words(gap + rest) == Words(rest)
  {
    if gap == "" {
      assert gap + rest == rest;
    } else {
      assert gap[0] in gap && (gap + rest)[1..] == gap[1..] + rest;
      assert forall c :: c in gap[1..] ==> c in gap;
      GapSkipped(gap[1..], rest);
    }
  }

  /** The text whose words make the slug holds only separators and lower-case word characters. */
  lemma KeptIsClean(a: Alphabet, name: string)
    requires Lawful(a)
    ensures forall c :: c in Keep(a, Strip(a.lower(name))) ==> Sep(c) || SlugChar(a, c)
  {
    var low := a.lower(name);
    assert forall c :: c in low ==> IsLower(a, c);
    TrimWithin(IsSpace, low);
    KeepSelects(a, Strip(low));
  }

  lemma SlugifyIsSlug(a: Alphabet, name: string)
    requires Lawful(a)
    ensures IsSlug(a, Slugify(a, name))
  {
    var kept := Keep(a, Strip(a.lower(name)));
    KeptIsClean(a, name);
    SlugifyJoinsWords(a, name);
    WordsArePieces(kept);
    JoinShape(Words(kept), kept);
    if Words(kept) == [] {
      DefaultIsSlug(a);
    }
  }

  lemma DefaultIsSlug(a: Alphabet)
    requires Lawful(a)
    ensures IsSlug(a, "default")
  {
    assert forall c :: c in "default" ==> !Sep(c) && SlugChar(a, c);
  }

  lemma {:induction false} SlugPipelineFixes(a: Alphabet, s: string)
    requires forall c :: c in s ==> c == '-' || SlugChar(a, c)
    requires NoDouble(s)
    ensures Keep(a, s) == s && Collapse(s) == s
  {
    if s == "" {
    } else {
      assert s[0] in s;
      var t := s[1..];
      assert NoDouble(t) by {
        forall i | 0 <= i < |t| - 1 ensures t[i] != '-' || t[i + 1] != '-' {
          assert t[i] == s[i + 1] && t[i + 1] == s[i + 2];
        }
      }
      SlugPipelineFixes(a, t);
      assert s == [s[0]] + t;
      if |s| > 1 {
        assert s[1] in s;
      }
    }
  }

  /** The slugs are exactly the names that normalisation leaves alone. */
  lemma SlugsAreFixedPoints(a: Alphabet, s: string)
    requires Lawful(a)
    ensures Slugify(a, s) == s <==> IsSlug(a, s)
  {
    if IsSlug(a, s) {
      SlugPipelineFixes(a, s);
      assert a.lower(s) == s;
      assert s[0] in s && s[|s| - 1] in s;
      assert "" + s + "" == s;
      TrimAround(IsSpace, "", s, "");
      TrimAround(IsHyphen, "", s, "");
    } else {
      SlugifyIsSlug(a, s);
    }
  }

  lemma SlugifyIdempotent(a: Alphabet, name: string)
    requires Lawful(a)
    ensures Slugify(a, Slugify(a, name)) == Slugify(a, name)
  {
    SlugifyIsSlug(a, name);
    SlugsAreFixedPoints(a, Slugify(a, name));
  }

  // ----- The ASCII alphabet -----

  function AsciiLowerChar(c: char): char {
    if 'A' <= c <= 'Z' then (c as int + 32) as char else c
  }

  function AsciiLower(s: string): string {
    if s == "" then "" else [AsciiLowerChar(s[0])] + AsciiLower(s[1..])
  }

  predicate AsciiWord(c: char) {
    'a' <= c <= 'z' || 'A' <= c <= 'Z' || '0' <= c <= '9' || c == '_'
  }

  const ASCII := Alphabet(AsciiLower, AsciiWord)

  lemma AsciiIsLower(c: char)
    ensures IsLower(ASCII, c) <==> !('A' <= c <= 'Z')
  {
    assert AsciiLower([c]) == [AsciiLowerChar(c)];
  }

  lemma {:induction false} AsciiLowerSettles(s: string)
    ensures forall c :: c in AsciiLower(s) ==> !('A' <= c <= 'Z')
  {
    if s != "" {
      AsciiLowerSettles(s[1..]);
    }
  }

  lemma {:induction false} AsciiLowerFixes(s: string)
    requires forall c :: c in s ==> !('A' <= c <= 'Z')
    ensures AsciiLower(s) == s
  {
    if s != "" {
      assert s[0] in s && s == [s[0]] + s[1..];
      assert forall c :: c in s[1..] ==> c in s;
      AsciiLowerFixes(s[1..]);
    }
  }

  lemma AsciiIsLawful()
    ensures Lawful(ASCII)
  {
    forall c ensures IsLower(ASCII, c) <==> !('A' <= c <= 'Z') {
      AsciiIsLower(c);
    }
    forall s ensures forall c :: c in ASCII.lower(s) ==> IsLower(ASCII, c) {
      AsciiLowerSettles(s);
    }
    forall s | forall c :: c in s ==> IsLower(ASCII, c) ensures ASCII.lower(s) == s {
      AsciiLowerFixes(s);
    }
  }

  /** For ASCII names nothing need be assumed. */
  lemma AsciiSlugs(name: string)
    ensures IsSlug(ASCII, Slugify(ASCII, name))
    ensures Slugify(ASCII, Slugify(ASCII, name)) == Slugify(ASCII, name)
  {
    AsciiIsLawful();
    SlugifyIsSlug(ASCII, name);
    SlugifyIdempotent(ASCII, name);
  }

  /** And what words and gaps are is plain: letters and digits on one side, blanks, underscores and hyphens on the
      other. */
  lemma AsciiTwoWords(left: string, gap: string, right: string)
    requires left != "" && gap != "" && right != ""
    requires forall c :: c in left + right ==> 'a' <= c <= 'z' || '0' <= c <= '9'
    requires forall c :: c in gap ==> c == ' ' || c == '_' || c == '-'
    ensures Slugify(ASCII, left + gap + right) == left + "-" + right
  {
    AsciiIsLawful();
    forall c | c in left || c in right ensures SlugChar(ASCII, c) {
      assert c in left + right;
      AsciiIsLower(c);
    }
    forall c | c in gap ensures IsLower(ASCII, c) && Kept(ASCII, c) {
      AsciiIsLower(c);
    }
    TwoWordsOneHyphen(ASCII, left, gap, right);
  }

  /** Case does not matter. */
  lemma AsciiIgnoresCase(name: string)
    ensures Slugify(ASCII, AsciiLower(name)) == Slugify(ASCII, name)
  {
    AsciiLowerSettles(name);
    AsciiLowerFixes(AsciiLower(name));
  }

  // ----- The search -----

  /** The k-th slug tried: base, base-2, base-3, ... */
  function Candidate(base: string, k: nat): string {
    if k == 0 then base else base + "-" + Decimal(k + 1)
  }

  /** The first try is the base itself and the k-th after it appends the numeral of k + 1: base-2, base-3, ... */
  lemma CandidatesAre(base: string, k: nat)
    ensures Candidate(base, 0) == base && Candidate(base, 1) == base + "-2" && Candidate(base, 2) == base + "-3"
    ensures k > 0 ==>
              && |Candidate(base, k)| > |base| + 1 && Candidate(base, k)[..|base| + 1] == base + "-"
              && Value(Candidate(base, k)[|base| + 1..]) == k + 1 && Candidate(base, k)[|base| + 1] != '0'
  {
    if k > 0 {
      DecimalValue(k + 1);
      assert Candidate(base, k) == base + "-" + Decimal(k + 1);
    }
  }

  lemma CandidatesDistinct(base: string, i: nat, j: nat)
    requires Candidate(base, i) == Candidate(base, j)
    ensures i == j
  {
    var a, b := Candidate(base, i), Candidate(base, j);
    assert |a| == |b|;
    if i != 0 && j != 0 {
      assert a[|base| + 1..] == Decimal(i + 1) && b[|base| + 1..] == Decimal(j + 1);
      DecimalInjective(i + 1, j + 1);
    }
  }

  lemma CandidateIsSlug(a: Alphabet, base: string, k: nat)
    requires Lawful(a) && IsSlug(a, base)
    ensures IsSlug(a, Candidate(base, k))
  {
    if k > 0 {
      var d := Decimal(k + 1);
      var s := Candidate(base, k);
      assert d[0] in d && d[|d| - 1] in d;
      assert s == base + "-" + d && s[|s| - 1] == d[|d| - 1];
      assert NoDouble(d) by {
        forall i | 0 <= i < |d| - 1 ensures d[i] != '-' {
          assert d[i] in d;
        }
      }
      NoDoubleAppend(base, "-");
      NoDoubleAppend(base + "-", d);
      forall c | c in s ensures c == '-' || SlugChar(a, c) {
        assert c in base || c == '-' || c in d;
      }
    }
  }

  /** The first candidate from the k-th on, up to but excluding the last-th, that is not taken. */
  function FirstFree(base: string, taken: set<string>, k: nat, last: nat): (r: Option<string>)
    ensures r.None? ==> forall j :: k <= j < last ==> Candidate(base, j) in taken
    ensures r.Some? ==> exists i :: k <= i < last && r.value == Candidate(base, i) && r.value !in taken
                                    && forall j :: k <= j < i ==> Candidate(base, j) in taken
    decreases last - k
  {
    if k >= last then None
    else if Candidate(base, k) !in taken then Some(Candidate(base, k))
    else FirstFree(base, taken, k + 1, last)
  }

  /** `generate_unique_slug`: at most maxAttempts probes of the organizations' slugs. */
  function UniqueSlug(a: Alphabet, taken: set<string>, name: string, maxAttempts: nat): Option<string> {
    FirstFree(Slugify(a, name), taken, 0, maxAttempts)
  }

  method GenerateUniqueSlug(a: Alphabet, taken: set<string>, name: string, maxAttempts: nat)
    returns (r: Option<string>)
    ensures r == UniqueSlug(a, taken, name, maxAttempts)
    ensures r.Some? ==> exists i :: 0 <= i < maxAttempts && r.value == Candidate(Slugify(a, name), i)
                                    && r.value !in taken
                                    && forall j :: 0 <= j < i ==> Candidate(Slugify(a, name), j) in taken
  {
    var base := Slugify(a, name);
    var candidate := base;
    var counter := 2;
    for n := 0 to maxAttempts
      invariant counter == n + 2
      invariant candidate == Candidate(base, n)
      invariant FirstFree(base, taken, 0, maxAttempts) == FirstFree(base, taken, n, maxAttempts)
      invariant forall j :: 0 <= j < n ==> Candidate(base, j) in taken
    {
      if candidate !in taken {
        return Some(candidate);
      }
      candidate := base + "-" + Decimal(counter);
      counter := counter + 1;
    }
    return None;
  }

  ghost function Candidates(base: string, n: nat): set<string> {
    if n == 0 then {} else Candidates(base, n - 1) + {Candidate(base, n - 1)}
  }

  lemma {:induction false} CandidatesMember(base: string, n: nat, s: string)
    ensures s in Candidates(base, n) <==> exists i: nat :: i < n && s == Candidate(base, i)
  {
    if n > 0 {
      CandidatesMember(base, n - 1, s);
    }
  }

  lemma {:induction false} CandidatesCount(base: string, n: nat)
    ensures |Candidates(base, n)| == n
  {
    if n > 0 {
      var s := Candidate(base, n - 1);
      CandidatesCount(base, n - 1);
      CandidatesMember(base, n - 1, s);
      if s in Candidates(base, n - 1) {
        var i: nat :| i < n - 1 && s == Candidate(base, i);
        CandidatesDistinct(base, n - 1, i);
      }
    }
  }

  /** The search fails exactly when every candidate is taken, so never while fewer slugs exist than probes. */
  lemma SearchFailsOnlyWhenFull(a: Alphabet, taken: set<string>, name: string, maxAttempts: nat)
    ensures UniqueSlug(a, taken, name, maxAttempts) == None
            <==> Candidates(Slugify(a, name), maxAttempts) <= taken
    ensures |taken| < maxAttempts ==> UniqueSlug(a, taken, name, maxAttempts).Some?
  {
    var base := Slugify(a, name);
    CandidatesCount(base, maxAttempts);
    if UniqueSlug(a, taken, name, maxAttempts) == None {
      forall s | s in Candidates(base, maxAttempts) ensures s in taken {
        CandidatesMember(base, maxAttempts, s);
      }
      Sets.SubsetCount(Candidates(base, maxAttempts), taken);
    } else {
      CandidatesMember(base, maxAttempts, UniqueSlug(a, taken, name, maxAttempts).value);
    }
  }

  lemma UniqueSlugIsSlug(a: Alphabet, taken: set<string>, name: string, maxAttempts: nat)
    requires Lawful(a)
    ensures var r := UniqueSlug(a, taken, name, maxAttempts);
      r.Some? ==> IsSlug(a, r.value) && Slugify(a, r.value) == r.value && r.value !in taken
  {
    var r := UniqueSlug(a, taken, name, maxAttempts);
    if r.Some? {
      var i :| 0 <= i < maxAttempts && r.value == Candidate(Slugify(a, name), i);
      SlugifyIsSlug(a, name);
      CandidateIsSlug(a, Slugify(a, name), i);
      SlugsAreFixedPoints(a, r.value);
    }
  }
}
