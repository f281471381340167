/** Workspace slugs: how a company name becomes one, and how registration finds one not yet taken. */
module Slug {
  import opened Wrappers

  /** A character the normaliser keeps: [a-z0-9]. */
  predicate Kept(c: char) { 'a' <= c <= 'z' || '0' <= c <= '9' }

  predicate IsWord(w: string) { w != [] && forall i :: 0 <= i < |w| ==> Kept(w[i]) }

  predicate AllWords(ws: seq<string>) { forall i :: 0 <= i < |ws| ==> IsWord(ws[i]) }

  function Join(ws: seq<string>): string {
    if ws == [] then ""
    else if |ws| == 1 then ws[0]
    else ws[0] + "-" + Join(ws[1..])
  }

  /** The form [a-z0-9]+(-[a-z0-9]+)*. */
  ghost predicate IsSlug(s: string) { exists ws :: ws != [] && AllWords(ws) && s == Join(ws) }

  // ---------------------------------------------------------------- runs of characters

  /** The length of the leading run of kept (or of other) characters. */
  function Run(s: string, kept: bool): (n: nat)
    ensures n <= |s|
    ensures forall i :: 0 <= i < n ==> Kept(s[i]) == kept
    ensures n < |s| ==> Kept(s[n]) != kept
  {
    if s == [] || Kept(s[0]) != kept then 0 else 1 + Run(s[1..], kept)
  }

  /** The maximal runs of kept characters, in order. */
  function Words(s: string): seq<string>
    decreases |s|
  {
    if s == [] then []
    else if Kept(s[0]) then [s[..Run(s, true)]] + Words(s[Run(s, true)..])
    else Words(s[Run(s, false)..])
  }

  lemma {:induction false} WordsAreWords(s: string)
    ensures AllWords(Words(s))
    decreases |s|
  {
    if s != [] {
      WordsAreWords(s[Run(s, Kept(s[0]))..]);
    }
  }

  /** A string has a word if and only if it has a kept character. */
  lemma {:induction false} HasAWord(s: string)
    ensures Words(s) != [] <==> exists i :: 0 <= i < |s| && Kept(s[i])
    decreases |s|
  {
    if s != [] && !Kept(s[0]) {
      var n := Run(s, false);
      HasAWord(s[n..]);
      if i :| 0 <= i < |s| && Kept(s[i]) {
        assert i >= n && s[n..][i - n] == s[i];
      }
      if i :| 0 <= i < |s[n..]| && Kept(s[n..][i]) {
        assert s[n + i] == s[n..][i];
      }
    }
  }

  // ---------------------------------------------------------------- normalisation

  /** re.sub(r'[^a-z0-9]+', '-', s): each run of other characters becomes one hyphen. */
  function Hyphenate(s: string): string
    decreases |s|
  {
    if s == [] then []
    else if Kept(s[0]) then [s[0]] + Hyphenate(s[1..])
    else "-" + Hyphenate(s[Run(s, false)..])
  }

  function StripLeft(s: string): string {
    if s != [] && s[0] == '-' then StripLeft(s[1..]) else s
  }

  function StripRight(s: string): string {
    if s != [] && s[|s| - 1] == '-' then StripRight(s[..|s| - 1]) else s
  }

  /** The slug of a lower-cased name. */
  function Normalise(s: string): string { StripRight(StripLeft(Hyphenate(s))) }

  lemma {:induction false} HyphenateWord(s: string, n: nat)
    requires n <= Run(s, true)
    ensures Hyphenate(s) == s[..n] + Hyphenate(s[n..])
  {
    if n > 0 {
      HyphenateWord(s[1..], n - 1);
      assert s[..n] == [s[0]] + s[1..][..n - 1];
      assert s[1..][n - 1..] == s[n..];
    } else {
      assert s[0..] == s;
    }
  }

  function Lead(s: string): string { if s != [] && !Kept(s[0]) then "-" else "" }

  function Trail(s: string): string { if s != [] && !Kept(s[|s| - 1]) && Words(s) != [] then "-" else "" }

  ghost predicate Joined(s: string) { Hyphenate(s) == Lead(s) + Join(Words(s)) + Trail(s) }

  lemma {:induction false} HyphenateJoinsWords(s: string)
    ensures Joined(s)
    decreases |s|
  {
    if s != [] {
      HyphenateJoinsWords(s[Run(s, Kept(s[0]))..]);
      if Kept(s[0]) {
        WordFirst(s);
      } else {
        OthersFirst(s);
      }
    }
  }

  /** One step of the substitution and of the division into words. */
  lemma {:induction false} Unfold(s: string, rest: string)
    requires s != [] && rest == s[Run(s, Kept(s[0]))..]
    ensures Hyphenate(s) == (if Kept(s[0]) then s[..|s| - |rest|] else "-") + Hyphenate(rest)
    ensures Words(s) == (if Kept(s[0]) then [s[..|s| - |rest|]] else []) + Words(rest)
    ensures rest != [] ==> rest[|rest| - 1] == s[|s| - 1] && Kept(rest[0]) != Kept(s[0])
    ensures rest == [] ==> Kept(s[|s| - 1]) == Kept(s[0])
  {
    if Kept(s[0]) {
      HyphenateWord(s, Run(s, true));
    }
  }

  lemma {:induction false} EdgesOfOthers(s: string, rest: string)
    requires s != [] && !Kept(s[0]) && rest == s[Run(s, false)..]
    ensures Lead(s) == "-" && Lead(rest) == "" && Trail(s) == Trail(rest)
  {
    Unfold(s, rest);
    assert [] + Words(rest) == Words(rest);
  }

  lemma {:induction false} EdgesOfWord(s: string, rest: string)
    requires s != [] && Kept(s[0]) && rest == s[Run(s, true)..]
    ensures Lead(s) == "" && (rest != [] ==> Lead(rest) == "-")
    ensures Words(rest) != [] ==> Trail(s) == Trail(rest)
    ensures Words(rest) == [] ==> Trail(s) == Lead(rest) && Trail(rest) == ""
  {
    Unfold(s, rest);
    HasAWord(rest);
    assert rest != [] && Words(rest) == [] ==> !Kept(rest[|rest| - 1]);
  }

  lemma {:induction false} OthersFirst(s: string)
    requires s != [] && !Kept(s[0]) && Joined(s[Run(s, false)..])
    ensures Joined(s)
  {
    var rest := s[Run(s, false)..];
    Unfold(s, rest);
    EdgesOfOthers(s, rest);
    LeadingHyphen(Join(Words(rest)), Trail(rest));
  }

  lemma LeadingHyphen(body: string, trail: string)
    ensures "-" + ("" + body + trail) == "-" + body + trail
  {
  }

  /** How the pieces fit when a word comes first. */
  lemma LeadingWord(w: string, lead: string, body: string, trail: string, joined: string, end: string)
    requires if body == "" then joined == w && end == lead && trail == ""
             else joined == w + "-" + body && lead == "-" && end == trail
    ensures w + (lead + body + trail) == "" + joined + end
  {
  }

  lemma {:induction false} WordFirst(s: string)
    requires s != [] && Kept(s[0]) && Joined(s[Run(s, true)..])
    ensures Joined(s)
  {
    var rest := s[Run(s, true)..];
    Unfold(s, rest);
    EdgesOfWord(s, rest);
    var w := s[..|s| - |rest|];
    WordThenRest(w, Words(rest));
    WordsAreWords(rest);
    if Words(rest) != [] {
      JoinEdges(Words(rest));
      assert rest != [];
    }
    LeadingWord(w, Lead(rest), Join(Words(rest)), Trail(rest), Join(Words(s)), Trail(s));
  }

  lemma {:induction false} WordThenRest(w: string, rest: seq<string>)
    ensures Join([w] + rest) == w + (if rest == [] then "" else "-" + Join(rest))
  {
    assert ([w] + rest)[1..] == rest;
  }

  lemma {:induction false} JoinEdges(ws: seq<string>)
    requires AllWords(ws) && ws != []
    ensures Join(ws) != [] && Kept(Join(ws)[0]) && Kept(Join(ws)[|Join(ws)| - 1])
  {
    if |ws| > 1 {
      JoinEdges(ws[1..]);
    }
  }

  /** The normaliser keeps the words, in order, and puts single hyphens between them. */
  lemma {:induction false} NormaliseJoinsWords(s: string)
    ensures Normalise(s) == Join(Words(s))
  {
    HyphenateJoinsWords(s);
    WordsAreWords(s);
    var core := Join(Words(s));
    if Words(s) == [] {
      assert Hyphenate(s) == Lead(s);
      StripHyphen(core);
    } else {
      JoinEdges(Words(s));
      assert Hyphenate(s) == Lead(s) + (core + Trail(s));
      StripLeftEnd(Lead(s), core + Trail(s));
      StripRightEnd(core, Trail(s));
    }
  }

  lemma StripHyphen(core: string)
    requires core == ""
    ensures StripRight(StripLeft("-")) == core && StripRight(StripLeft("")) == core
  {
    assert StripLeft("-") == StripLeft("-"[1..]) == "";
  }

  lemma {:induction false} StripLeftEnd(lead: string, s: string)
    requires (lead == "-" || lead == "") && s != [] && s[0] != '-'
    ensures StripLeft(lead + s) == s
  {
    if lead == "-" {
      assert (lead + s)[1..] == s;
    } else {
      assert lead + s == s;
    }
  }

  lemma {:induction false} StripRightEnd(s: string, trail: string)
    requires (trail == "-" || trail == "") && s != [] && s[|s| - 1] != '-'
    ensures StripRight(s + trail) == s
  {
    if trail == "-" {
      assert (s + trail)[..|s|] == s;
    } else {
      assert s + trail == s;
    }
  }

  // ---------------------------------------------------------------- words and joins are inverse

  lemma {:induction false} RunOfWord(w: string, tail: string)
    requires forall i :: 0 <= i < |w| ==> Kept(w[i])
    requires tail == [] || !Kept(tail[0])
    ensures Run(w + tail, true) == |w|
  {
    if w == [] {
      assert w + tail == tail;
    } else {
      RunOfWord(w[1..], tail);
      assert (w + tail)[1..] == w[1..] + tail;
    }
  }

  lemma {:induction false} WordsOfWord(w: string, tail: string)
    requires IsWord(w) && (tail == [] || !Kept(tail[0]))
    ensures Words(w + tail) == [w] + Words(tail)
  {
    RunOfWord(w, tail);
    assert (w + tail)[0] == w[0];
    assert (w + tail)[..|w|] == w && (w + tail)[|w|..] == tail;
  }

  lemma {:induction false} WordsAfterHyphen(s: string)
    requires s != [] && Kept(s[0])
    ensures Words("-" + s) == Words(s)
  {
    assert ("-" + s)[1..] == s;
    assert Run("-" + s, false) == 1;
  }

  /** Splitting a joined string gives the words back. */
  lemma {:induction false} WordsOfJoin(ws: seq<string>)
    requires AllWords(ws)
    ensures Words(Join(ws)) == ws
  {
    if ws != [] {
      var w, rest := ws[0], ws[1..];
      WordsOfJoin(rest);
      assert [w] + rest == ws;
      WordThenRest(w, rest);
      if rest == [] {
        WordsOfWord(w, "");
        assert w + "" == w;
      } else {
        JoinEdges(rest);
        WordsOfWord(w, "-" + Join(rest));
        WordsAfterHyphen(Join(rest));
      }
    }
  }

  /** Normalising gives a slug, or nothing when the name has no letter or digit. */
  lemma NormalisedIsSlug(s: string)
    ensures Normalise(s) == "" <==> forall i :: 0 <= i < |s| ==> !Kept(s[i])
    ensures Normalise(s) != "" ==> IsSlug(Normalise(s))
  {
    NormaliseJoinsWords(s);
    WordsAreWords(s);
    HasAWord(s);
    if Words(s) != [] {
      JoinEdges(Words(s));
    }
  }

  /** The names left unchanged are exactly the slugs and the empty name. */
  lemma UnchangedIffSlug(s: string)
    ensures Normalise(s) == s <==> s == "" || IsSlug(s)
  {
    if IsSlug(s) {
      var ws :| ws != [] && AllWords(ws) && s == Join(ws);
      WordsOfJoin(ws);
      NormaliseJoinsWords(s);
    }
    NormalisedIsSlug(s);
  }

  lemma NormaliseIdempotent(s: string)
    ensures Normalise(Normalise(s)) == Normalise(s)
  {
    NormalisedIsSlug(s);
    UnchangedIffSlug(Normalise(s));
  }

  /** The slug is the only one with the words of the name. */
  lemma {:induction false} OnlySlugWithItsWords(s: string, t: string)
    requires IsSlug(t)
    ensures Words(t) == Words(s) <==> t == Normalise(s)
  {
    NormaliseJoinsWords(s);
    NormaliseJoinsWords(t);
    UnchangedIffSlug(t);
    WordsAreWords(s);
    WordsOfJoin(Words(s));
  }

  // ---------------------------------------------------------------- numbered candidates

  function Digit(d: nat): (c: char)
    requires d < 10
    ensures Kept(c)
  {
    ('0' as int + d) as char
  }

  function Decimal(k: nat): (s: string)
    ensures IsWord(s)
  {
    if k < 10 then [Digit(k)] else Decimal(k / 10) + [Digit(k % 10)]
  }

  function Value(s: string): int {
    if s == [] then 0 else 10 * Value(s[..|s| - 1]) + (s[|s| - 1] as int - '0' as int)
  }

  lemma {:induction false} ValueOfDecimal(k: nat)
    ensures Value(Decimal(k)) == k
    ensures |Decimal(k)| > 1 ==> Decimal(k)[0] != '0'
  {
    if k >= 10 {
      ValueOfDecimal(k / 10);
      assert Decimal(k)[..|Decimal(k)| - 1] == Decimal(k / 10);
    }
  }

  /** The k-th slug tried: the base itself, then base-1, base-2 and so on. */
  function Candidate(base: string, k: nat): string { if k == 0 then base else base + "-" + Decimal(k) }

  lemma CandidatesDiffer(base: string, j: nat, k: nat)
    requires j < k
    ensures Candidate(base, j) != Candidate(base, k)
  {
    if j > 0 && Candidate(base, j) == Candidate(base, k) {
      assert Candidate(base, j)[|base| + 1..] == Decimal(j);
      assert Candidate(base, k)[|base| + 1..] == Decimal(k);
      ValueOfDecimal(j);
      ValueOfDecimal(k);
    }
  }

  lemma {:induction false} JoinAppend(ws: seq<string>, w: string)
    requires ws != []
    ensures Join(ws + [w]) == Join(ws) + "-" + w
  {
    if |ws| == 1 {
      assert (ws + [w])[1..] == [w];
    } else {
      JoinAppend(ws[1..], w);
      assert (ws + [w])[1..] == ws[1..] + [w];
    }
  }

  lemma SlugAndWord(base: string, w: string)
    requires IsSlug(base) && IsWord(w)
    ensures IsSlug(base + "-" + w)
  {
    var ws :| ws != [] && AllWords(ws) && base == Join(ws);
    JoinAppend(ws, w);
    assert AllWords(ws + [w]);
  }

  // ---------------------------------------------------------------- allocation

  /** The first eight hexadecimal digits of a fresh UUID. */
  predicate IsHex8(hex: string) {
    |hex| == 8 && forall i :: 0 <= i < 8 ==> '0' <= hex[i] <= '9' || 'a' <= hex[i] <= 'f'
  }

  function BaseSlug(lowered: string, hex: string): string {
    if Normalise(lowered) == "" then "tenant-" + hex else Normalise(lowered)
  }

  lemma BaseIsSlug(lowered: string, hex: string)
    requires IsHex8(hex)
    ensures IsSlug(BaseSlug(lowered, hex))
  {
    NormalisedIsSlug(lowered);
    assert IsSlug("tenant") by {
      assert AllWords(["tenant"]) && Join(["tenant"]) == "tenant";
    }
    SlugAndWord("tenant", hex);
    assert "tenant-" + hex == "tenant" + "-" + hex;
  }

  /** The name has a letter or a digit. */
  predicate HasKept(lowered: string) {
    exists i :: 0 <= i < |lowered| && ('a' <= lowered[i] <= 'z' || '0' <= lowered[i] <= '9')
  }

  /** The words a slug is built from: the name's, or a fallback for a name without any. */
  function NameWords(lowered: string, hex: string): seq<string> {
    if HasKept(lowered) then Words(lowered) else ["tenant", hex]
  }

  lemma HexIsWord(hex: string)
    requires IsHex8(hex)
    ensures IsWord(hex) && AllWords(["tenant", hex])
  {
  }

  lemma BaseWords(lowered: string, hex: string)
    requires IsHex8(hex)
    ensures var ws := NameWords(lowered, hex);
      ws != [] && AllWords(ws) && BaseSlug(lowered, hex) == Join(ws)
  {
    HexIsWord(hex);
    NormalisedIsSlug(lowered);
    NormaliseJoinsWords(lowered);
    WordsAreWords(lowered);
    HasAWord(lowered);
    assert ["tenant", hex][1..] == [hex];
    assert "tenant" + "-" + hex == "tenant-" + hex;
  }

  /** A candidate has the words of the name and, if it is numbered, one more. */
  lemma {:induction false} CandidateWords(lowered: string, hex: string, k: nat)
    requires IsHex8(hex)
    ensures Words(Candidate(BaseSlug(lowered, hex), k))
         == NameWords(lowered, hex) + (if k == 0 then [] else [Decimal(k)])
  {
    BaseWords(lowered, hex);
    var ws := NameWords(lowered, hex);
    if k == 0 {
      WordsOfJoin(ws);
      assert ws + [] == ws;
    } else {
      JoinAppend(ws, Decimal(k));
      assert AllWords(ws + [Decimal(k)]);
      WordsOfJoin(ws + [Decimal(k)]);
    }
  }

  /** The candidates numbered below n. */
  function Tried(base: string, n: nat): set<string> {
    if n == 0 then {} else Tried(base, n - 1) + {Candidate(base, n - 1)}
  }

  lemma {:induction false} NotTriedBefore(base: string, n: nat, k: nat)
    requires n <= k
    ensures Candidate(base, k) !in Tried(base, n)
  {
    if n > 0 {
      NotTriedBefore(base, n - 1, k);
      CandidatesDiffer(base, n - 1, k);
    }
  }

  lemma {:induction false} TriedAreMany(base: string, n: nat)
    ensures |Tried(base, n)| == n
  {
    if n > 0 {
      TriedAreMany(base, n - 1);
      NotTriedBefore(base, n - 1, n - 1);
    }
  }

  lemma {:induction false} TriedAreTaken(base: string, taken: set<string>, n: nat)
    requires forall k :: 0 <= k < n ==> Candidate(base, k) in taken
    ensures Tried(base, n) <= taken
  {
    if n > 0 {
      TriedAreTaken(base, taken, n - 1);
    }
  }

  /** Pigeonhole: as many candidates as there are taken slugs, and one more, cannot all be taken. */
  lemma SomeCandidateIsFree(base: string, taken: set<string>, n: nat)
    requires forall k :: 0 <= k < n ==> Candidate(base, k) in taken
    ensures n <= |taken|
  {
    TriedAreMany(base, n);
    TriedAreTaken(base, taken, n);
    SubsetSize(Tried(base, n), taken);
  }

  /** Registration's loop: at most one probe more than there are taken slugs, and the first free
      candidate is the one returned. */
  method FirstFree(base: string, taken: set<string>) returns (slug: string, probes: nat)
    requires IsSlug(base)
    ensures IsSlug(slug) && slug !in taken && 1 <= probes <= |taken| + 1
    ensures slug == Candidate(base, probes - 1)
    ensures forall k :: 0 <= k < probes - 1 ==> Candidate(base, k) in taken
  {
    slug := base;
    probes := 1;
    var counter := 1;
    while slug in taken
      invariant counter == probes && slug == Candidate(base, counter - 1) && IsSlug(slug)
      invariant forall k :: 0 <= k < counter - 1 ==> Candidate(base, k) in taken
      invariant counter - 1 <= |taken|
      decreases |taken| + 1 - counter
    {
      SomeCandidateIsFree(base, taken, counter);
      SlugAndWord(base, Decimal(counter));
      slug := base + "-" + Decimal(counter);
      counter := counter + 1;
      probes := probes + 1;
    }
  }

  /** The slug a registration gets: free, in slug form, and made of the words of the company's name and,
      unless the first probe was free, a number; only a name without letters and digits gets the
      fallback. */
  method AllocateSlug(lowered: string, hex: string, taken: set<string>) returns (slug: string, probes: nat)
    requires IsHex8(hex)
    ensures IsSlug(slug) && slug !in taken
    ensures 1 <= probes <= |taken| + 1
    ensures Words(slug) == (if HasKept(lowered) then Words(lowered) else ["tenant", hex])
                           + (if probes == 1 then [] else [Decimal(probes - 1)])
    ensures slug == Candidate(BaseSlug(lowered, hex), probes - 1)
    ensures forall k :: 0 <= k < probes - 1 ==> Candidate(BaseSlug(lowered, hex), k) in taken
  {
    BaseIsSlug(lowered, hex);
    slug, probes := FirstFree(BaseSlug(lowered, hex), taken);
    CandidateWords(lowered, hex, probes - 1);
  }
}
