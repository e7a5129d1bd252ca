/**
 Name normalisation and similarity for sanctions screening (backend/src/aml/aml-name-match.ts).
 */
module NameMatch {
  import opened Collections
  import opened Division

  /** NFD decomposition, removal of combining marks and lower-casing. */
  type Folding = string -> string

  predicate LetterOrDigit(c: char) {
    'a' <= c <= 'z' || '0' <= c <= '9'
  }

  predicate Space(c: char) {
    c == ' ' || c == '\t' || c == '\n' || c == '\r'
  }

  predicate Word(s: string) {
    s != "" && forall i :: 0 <= i < |s| ==> LetterOrDigit(s[i])
  }

  predicate Noise(token: string) {
    token in {
      "limited", "ltd", "incorporated", "inc", "corp", "corporation", "co", "company", "holding", "group", "the", "of",
      "and"}
  }

  predicate KeptToken(token: string) {
    token != "" && !Noise(token)
  }

  /** Punctuation becomes a space. */
  function Blanked(s: string): (r: string)
    ensures |r| == |s|
    ensures forall i :: 0 <= i < |r| ==> r[i] == if LetterOrDigit(s[i]) || Space(s[i]) then s[i] else ' '
  {
    seq(|s|, i requires 0 <= i < |s| => if LetterOrDigit(s[i]) || Space(s[i]) then s[i] else ' ')
  }

  /** The pieces between white space; cur is the piece being read. Empty pieces are dropped by the caller. */
  function Pieces(cur: string, s: string): seq<string>
    decreases |s|
  {
    if s == "" then [cur]
    else if Space(s[0]) then [cur] + Pieces("", s[1..])
    else Pieces(cur + [s[0]], s[1..])
  }

  function Kept(tokens: seq<string>): (r: seq<string>) {
    if tokens == [] then [] else (if KeptToken(tokens[0]) then [tokens[0]] else []) + Kept(tokens[1..])
  }

  function Join(tokens: seq<string>): string {
    if tokens == [] then "" else if |tokens| == 1 then tokens[0] else tokens[0] + " " + Join(tokens[1..])
  }

  function Tokens(fold: Folding, name: string): seq<string> {
    Kept(Pieces("", Blanked(fold(name))))
  }

  function NormaliseSanctionsName(fold: Folding, name: string): string {
    Join(Tokens(fold, name))
  }

  function Unique(s: seq<string>): (r: seq<string>)
    ensures forall x :: x in r <==> x in s
  {
    if s == [] then []
    else
      assert s == s[..|s| - 1] + [s[|s| - 1]];
      var rest := Unique(s[..|s| - 1]);
      if s[|s| - 1] in rest then rest else rest + [s[|s| - 1]]
  }

  function NormaliseTokenSet(fold: Folding, name: string): seq<string> {
    var normalised := NormaliseSanctionsName(fold, name);
    if normalised == "" then [] else Unique(Pieces("", normalised))
  }

  // ---- Normalising twice ----

  predicate Plain(s: string) {
    forall i :: 0 <= i < |s| ==> LetterOrDigit(s[i]) || s[i] == ' '
  }

  /** Folding leaves lower-case ASCII letters, digits and spaces alone. */
  ghost predicate FixesPlain(fold: Folding) {
    forall s :: Plain(s) ==> fold(s) == s
  }

  predicate WordsAll(tokens: seq<string>) {
    forall i :: 0 <= i < |tokens| ==> Word(tokens[i]) && !Noise(tokens[i])
  }

  predicate LettersOrSpaces(s: string) {
    forall i :: 0 <= i < |s| ==> LetterOrDigit(s[i]) || Space(s[i])
  }

  lemma {:induction false} SplitGivesWords(cur: string, s: string)
    requires LettersOrSpaces(s) && (cur == "" || Word(cur))
    ensures forall t :: t in Pieces(cur, s) ==> t == "" || Word(t)
    decreases |s|
  {
    if s != "" {
      if Space(s[0]) {
        SplitGivesWords("", s[1..]);
      } else {
        SplitGivesWords(cur + [s[0]], s[1..]);
      }
    }
  }

  lemma {:induction false} KeptAreWords(tokens: seq<string>)
    requires forall t :: t in tokens ==> t == "" || Word(t)
    ensures WordsAll(Kept(tokens))
  {
    if tokens != [] {
      KeptAreWords(tokens[1..]);
    }
  }

  lemma TokensAreWords(fold: Folding, name: string)
    ensures WordsAll(Tokens(fold, name))
  {
    SplitGivesWords("", Blanked(fold(name)));
    KeptAreWords(Pieces("", Blanked(fold(name))));
  }

  /** Reading a word extends the current piece. */
  lemma {:induction false} SplitReadsWord(cur: string, word: string, rest: string)
    requires forall i :: 0 <= i < |word| ==> LetterOrDigit(word[i])
    ensures Pieces(cur, word + rest) == Pieces(cur + word, rest)
    decreases |word|
  {
    if word == "" {
      assert word + rest == rest && cur + word == cur;
    } else {
      assert (word + rest)[1..] == word[1..] + rest;
      assert (cur + [word[0]]) + word[1..] == cur + word;
      SplitReadsWord(cur + [word[0]], word[1..], rest);
    }
  }

  /** Splitting undoes joining. */
  lemma {:induction false} SplitOfJoin(tokens: seq<string>)
    requires WordsAll(tokens) && tokens != []
    ensures Pieces("", Join(tokens)) == tokens
  {
    var t := tokens[0];
    if |tokens| == 1 {
      SplitReadsWord("", t, "");
      assert t + "" == t && "" + t == t;
    } else {
      var rest := " " + Join(tokens[1..]);
      SplitOfJoin(tokens[1..]);
      assert Join(tokens) == t + rest;
      SplitReadsWord("", t, rest);
      assert "" + t == t && rest[1..] == Join(tokens[1..]);
    }
  }

  lemma {:induction false} JoinIsPlain(tokens: seq<string>)
    requires WordsAll(tokens)
    ensures Plain(Join(tokens)) && (Join(tokens) == "" <==> tokens == [])
  {
    if |tokens| > 1 {
      JoinIsPlain(tokens[1..]);
    }
  }

  lemma {:induction false} KeptOfWords(tokens: seq<string>)
    requires WordsAll(tokens)
    ensures Kept(tokens) == tokens
  {
    if tokens != [] {
      KeptOfWords(tokens[1..]);
    }
  }

  /** Tokens joined by spaces are read back. */
  lemma TokensOfJoin(fold: Folding, tokens: seq<string>)
    requires FixesPlain(fold) && WordsAll(tokens)
    ensures Tokens(fold, Join(tokens)) == tokens
  {
    var joined := Join(tokens);
    JoinIsPlain(tokens);
    assert Blanked(joined) == joined;
    if tokens == [] {
      assert Kept([""]) == Kept([]);
    } else {
      SplitOfJoin(tokens);
      KeptOfWords(tokens);
    }
  }

  /** A normalised name has the tokens it was made of. */
  lemma TokensOfNormalised(fold: Folding, name: string)
    requires FixesPlain(fold)
    ensures Tokens(fold, NormaliseSanctionsName(fold, name)) == Tokens(fold, name)
  {
    TokensAreWords(fold, name);
    TokensOfJoin(fold, Tokens(fold, name));
  }

  /** Normalising is idempotent, and so is the token set. */
  lemma NormalisingTwice(fold: Folding, name: string)
    requires FixesPlain(fold)
    ensures var n := NormaliseSanctionsName(fold, name);
            NormaliseSanctionsName(fold, n) == n && NormaliseTokenSet(fold, n) == NormaliseTokenSet(fold, name)
  {
    TokensOfNormalised(fold, name);
  }

  lemma {:induction false} UniqueIsDistinct(s: seq<string>)
    ensures Distinct(Unique(s))
  {
    if s != [] {
      UniqueIsDistinct(s[..|s| - 1]);
    }
  }

  // ---- Scoring one pair of names ----

  datatype Method = Exact | TokenOverlap | Partial | NoMatch

  datatype NameScore = NameScore(score: nat, exactMatch: bool, sharedTokens: seq<string>, how: Method)

  const NOTHING := NameScore(0, false, [], NoMatch)

  function Shared(subject: seq<string>, listed: seq<string>): seq<string> {
    if subject == [] then []
    else Shared(subject[..|subject| - 1], listed) + if subject[|subject| - 1] in listed then [subject[|subject| - 1]]
        else []
  }

  /** Math.round of a hundred times part over whole: halves go up. */
  function Percent(part: nat, whole: nat): nat
    requires whole > 0
  {
    (200 * part + whole) / (2 * whole)
  }

  /** a and b are the sizes of the two token sets, k the number of shared tokens. */
  function Graded(exact: bool, a: nat, b: nat, k: nat): (nat, Method)
    requires a > 0 && b > 0 && k <= a && k <= b
  {
    var jaccard := Percent(k, a + b - k);
    if exact then (100, Exact)
    else if (a >= 2 && k == a) || (b >= 2 && k == b) then (Max(jaccard, 90), TokenOverlap)
    else if k >= 2 then (Max(jaccard, 70 + (k - 2) * 5), TokenOverlap)
    else if k == 1 && a <= 2 && b <= 2 then (Min(jaccard, 65), Partial)
    else if k == 0 then (0, NoMatch)
    else (jaccard, Partial)
  }

  lemma {:induction false} SharedCount(subject: seq<string>, listed: seq<string>)
    requires Distinct(subject)
    ensures |Shared(subject, listed)| == |ElementSet(subject) * ElementSet(listed)|
  {
    if subject == [] {
      assert ElementSet(subject) * ElementSet(listed) == {};
    } else {
      var n := |subject| - 1;
      SharedCount(subject[..n], listed);
      assert subject == subject[..n] + [subject[n]];
      var before := ElementSet(subject[..n]) * ElementSet(listed);
      if subject[n] in listed {
        assert ElementSet(subject) * ElementSet(listed) == before + {subject[n]};
        assert subject[n] !in before;
      } else {
        assert ElementSet(subject) * ElementSet(listed) == before;
      }
    }
  }

  /** The sizes of intersection and union, as the scorer counts them. */
  lemma SharedBounds(subject: seq<string>, listed: seq<string>)
    requires Distinct(subject) && Distinct(listed)
    ensures var k := |Shared(subject, listed)|;
            && k <= |subject| && k <= |listed| && |ElementSet(subject) + ElementSet(listed)| == |subject| + |listed| - k
  {
    var a, b := ElementSet(subject), ElementSet(listed);
    SharedCount(subject, listed);
    ElementCount(subject);
    ElementCount(listed);
    SubsetSize(a * b, a);
    SubsetSize(a * b, b);
  }

  lemma TokenSetIsDistinct(fold: Folding, name: string)
    ensures Distinct(NormaliseTokenSet(fold, name))
  {
    UniqueIsDistinct(Pieces("", NormaliseSanctionsName(fold, name)));
  }

  function PairOf(fold: Folding, subjectName: string, candidate: string): NameScore {
    var subject, listed := NormaliseTokenSet(fold, subjectName), NormaliseTokenSet(fold, candidate);
    if subject == [] || listed == [] then NOTHING
    else
      TokenSetIsDistinct(fold, subjectName);
      TokenSetIsDistinct(fold, candidate);
      SharedBounds(subject, listed);
      var shared := Shared(subject, listed);
      var exact := NormaliseSanctionsName(fold, subjectName) == NormaliseSanctionsName(fold, candidate);
      var (score, how) := Graded(exact, |subject|, |listed|, |shared|);
      NameScore(score, exact, shared, how)
  }

  function PairScore(fold: Folding, a: string, b: string): nat {
    PairOf(fold, a, b).score
  }

  lemma SharedIsSymmetric(subject: seq<string>, listed: seq<string>)
    requires Distinct(subject) && Distinct(listed)
    ensures |Shared(subject, listed)| == |Shared(listed, subject)|
  {
    SharedCount(subject, listed);
    SharedCount(listed, subject);
    assert ElementSet(subject) * ElementSet(listed) == ElementSet(listed) * ElementSet(subject);
  }

  lemma GradedIsSymmetric(exact: bool, a: nat, b: nat, k: nat)
    requires a > 0 && b > 0 && k <= a && k <= b
    ensures Graded(exact, a, b, k) == Graded(exact, b, a, k)
  {
  }

  /** Which of two names is the subject and which is listed makes no difference to the score. */
  lemma PairScoreIsSymmetric(fold: Folding, a: string, b: string)
    ensures PairScore(fold, a, b) == PairScore(fold, b, a)
  {
    var s, l := NormaliseTokenSet(fold, a), NormaliseTokenSet(fold, b);
    TokenSetIsDistinct(fold, a);
    TokenSetIsDistinct(fold, b);
    if s != [] && l != [] {
      SharedBounds(s, l);
      SharedIsSymmetric(s, l);
      GradedIsSymmetric(NormaliseSanctionsName(fold, a) == NormaliseSanctionsName(fold, b), |s|, |l|, |Shared(s, l)|);
    }
  }

  lemma FullPercent(n: nat)
    requires n > 0
    ensures Percent(n, n) == 100
  {
    QuotientIs(200 * n + n, 2 * n, 100, n);
  }

  /**
   Equal token sets score 100 exactly when they have a token and the normalised names are equal, or two tokens or
   more. One token repeated a different number of times scores 65; names without any token score 0, even if equal.
   */
  lemma EqualTokenSetsScore(fold: Folding, a: string, b: string)
    requires ElementSet(NormaliseTokenSet(fold, a)) == ElementSet(NormaliseTokenSet(fold, b))
    ensures var same := NormaliseSanctionsName(fold, a) == NormaliseSanctionsName(fold, b);
            var tokens := |NormaliseTokenSet(fold, a)|;
            PairScore(fold, a, b) == if tokens == 0 then 0 else if same || tokens >= 2 then 100 else 65
  {
    var s, l := NormaliseTokenSet(fold, a), NormaliseTokenSet(fold, b);
    if s == [] {
      return;
    }
    TokenSetIsDistinct(fold, a);
    TokenSetIsDistinct(fold, b);
    ElementCount(s);
    ElementCount(l);
    SharedCount(s, l);
    assert ElementSet(s) * ElementSet(l) == ElementSet(s);
    FullPercent(|s|);
  }

  /** Percentages are rounded to the nearest whole number, halves up. */
  lemma PercentRounds(k: nat, whole: nat)
    requires whole > 0
    ensures 200 * k - whole < 2 * whole * Percent(k, whole) <= 200 * k + whole
  {
    var x, d := 200 * k + whole, 2 * whole;
    assert x == d * (x / d) + x % d;
  }

  /** The score of two names from their token sets: which is contained in which, and how much they share. */
  lemma PairScoreBySets(fold: Folding, a: string, b: string)
    ensures var s, l := ElementSet(NormaliseTokenSet(fold, a)), ElementSet(NormaliseTokenSet(fold, b));
            var k := |s * l|;
      && (s == {} || l == {} ==> PairScore(fold, a, b) == 0)
      && (s != {} && l != {} ==>
            |s + l| > 0
            && var jaccard := Percent(k, |s + l|);
            PairScore(fold, a, b) ==
              if NormaliseSanctionsName(fold, a) == NormaliseSanctionsName(fold, b) then 100
              else if (s <= l && |s| >= 2) || (l <= s && |l| >= 2) then Max(jaccard, 90)
              else if k >= 2 then Max(jaccard, 60 + 5 * k)
              else if k == 1 && |s| <= 2 && |l| <= 2 then Min(jaccard, 65)
              else if k == 1 then jaccard else 0)
  {
    hide Percent, NormaliseTokenSet, NormaliseSanctionsName, Shared, Distinct;
    var s, l := NormaliseTokenSet(fold, a), NormaliseTokenSet(fold, b);
    TokenSetIsDistinct(fold, a);
    TokenSetIsDistinct(fold, b);
    ElementCount(s);
    ElementCount(l);
    if s != [] && l != [] {
      SharedCount(s, l);
      SharedBounds(s, l);
      ContainedIff(ElementSet(s), ElementSet(l));
      ContainedIff(ElementSet(l), ElementSet(s));
      assert ElementSet(s) * ElementSet(l) == ElementSet(l) * ElementSet(s);
      assert s[0] in ElementSet(s) && l[0] in ElementSet(l);
    } else {
      assert s == [] <==> ElementSet(s) == {};
    }
  }

  /** The tokens reported are the shared ones, and the method says which of the comparisons gave the score. */
  lemma PairDetails(fold: Folding, a: string, b: string)
    ensures var s, l := ElementSet(NormaliseTokenSet(fold, a)), ElementSet(NormaliseTokenSet(fold, b));
            var p, k := PairOf(fold, a, b), |s * l|;
            var same := NormaliseSanctionsName(fold, a) == NormaliseSanctionsName(fold, b);
      && (s != {} && l != {} ==> ElementSet(p.sharedTokens) == s * l && (p.exactMatch <==> same))
      && (p.how == Exact <==> s != {} && l != {} && same)
      && (p.how == NoMatch <==> s == {} || l == {} || (k == 0 && !same))
      && (p.how == TokenOverlap <==>
          s != {} && l != {} && !same && ((s <= l && |s| >= 2) || (l <= s && |l| >= 2) || k >= 2))
  {
    var s, l := NormaliseTokenSet(fold, a), NormaliseTokenSet(fold, b);
    TokenSetIsDistinct(fold, a);
    TokenSetIsDistinct(fold, b);
    ElementCount(s);
    ElementCount(l);
    if s != [] && l != [] {
      SharedCount(s, l);
      SharedBounds(s, l);
      SharedElements(s, l);
      ContainedIff(ElementSet(s), ElementSet(l));
      ContainedIff(ElementSet(l), ElementSet(s));
      assert ElementSet(s) * ElementSet(l) == ElementSet(l) * ElementSet(s);
      assert s[0] in ElementSet(s) && l[0] in ElementSet(l);
    } else {
      assert s == [] <==> ElementSet(s) == {};
    }
  }

  lemma {:induction false} SharedElements(subject: seq<string>, listed: seq<string>)
    ensures forall t :: t in Shared(subject, listed) <==> t in subject && t in listed
  {
    if subject != [] {
      var n := |subject| - 1;
      SharedElements(subject[..n], listed);
      assert subject == subject[..n] + [subject[n]];
    }
  }

  lemma ContainedIff<T>(a: set<T>, b: set<T>)
    ensures a <= b <==> |a * b| == |a|
  {
    SubsetSize(a * b, a);
    assert a == a * b + (a - b);
  }

  lemma PercentAtMost100(k: nat, whole: nat)
    requires k <= whole && whole > 0
    ensures Percent(k, whole) <= 100
  {
    FullPercent(whole);
    DivideMonotone(200 * k + whole, 200 * whole + whole, 2 * whole);
  }

  /** The scale is left exactly by names that share nine tokens or more, each having others besides. */
  lemma Above100Iff(fold: Folding, a: string, b: string)
    ensures var s, l := NormaliseTokenSet(fold, a), NormaliseTokenSet(fold, b);
            var k := |Shared(s, l)|;
            PairScore(fold, a, b) > 100 <==> 9 <= k < |s| && k < |l|
  {
    hide NormaliseTokenSet, NormaliseSanctionsName, Shared, Percent, Distinct;
    var s, l := NormaliseTokenSet(fold, a), NormaliseTokenSet(fold, b);
    TokenSetIsDistinct(fold, a);
    TokenSetIsDistinct(fold, b);
    SharedBounds(s, l);
    if s != [] && l != [] {
      PercentAtMost100(|Shared(s, l)|, |s| + |l| - |Shared(s, l)|);
      if NormaliseSanctionsName(fold, a) == NormaliseSanctionsName(fold, b) {
        SameNameSharesAll(fold, a, b);
      }
    }
  }

  lemma SameNameSharesAll(fold: Folding, a: string, b: string)
    requires NormaliseSanctionsName(fold, a) == NormaliseSanctionsName(fold, b)
    ensures var s := NormaliseTokenSet(fold, a); s == NormaliseTokenSet(fold, b) && |Shared(s, s)| == |s|
  {
    var s := NormaliseTokenSet(fold, a);
    TokenSetIsDistinct(fold, a);
    SharedCount(s, s);
    ElementCount(s);
    assert ElementSet(s) * ElementSet(s) == ElementSet(s);
  }

  // ---- The best of several candidates ----

  /** The first candidate with the highest score above zero. */
  function BestOf(fold: Folding, subject: string, candidates: seq<string>): NameScore {
    if candidates == [] then NOTHING
    else
      var best := BestOf(fold, subject, candidates[..|candidates| - 1]);
      var last := PairOf(fold, subject, candidates[|candidates| - 1]);
      if last.score > best.score then last else best
  }

  method ScoreNameSimilarity(fold: Folding, subjectName: string, name: string, aliases: seq<string>)
    returns (best: NameScore)
    ensures best == BestOf(fold, subjectName, [name] + aliases)
  {
    hide NormaliseTokenSet, NormaliseSanctionsName, Shared, Graded;
    var subject := NormaliseTokenSet(fold, subjectName);
    if |subject| == 0 {
      NoTokensNoScore(fold, subjectName, [name] + aliases);
      return NOTHING;
    }
    var candidates := [name] + aliases;
    best := NOTHING;
    for i := 0 to |candidates|
      invariant best == BestOf(fold, subjectName, candidates[..i])
    {
      assert candidates[..i + 1][..i] == candidates[..i];
      var listed := NormaliseTokenSet(fold, candidates[i]);
      if |listed| == 0 {
        continue;
      }
      TokenSetIsDistinct(fold, subjectName);
      TokenSetIsDistinct(fold, candidates[i]);
      SharedBounds(subject, listed);
      var current := Scored(
        subject, listed, NormaliseSanctionsName(fold, subjectName) == NormaliseSanctionsName(fold, candidates[i]));
      if current.score > best.score {
        best := current;
      }
    }
    assert candidates[..|candidates|] == candidates;
  }

  /** The branches for one candidate, updating score and method in turn. */
  method Scored(subject: seq<string>, listed: seq<string>, exact: bool) returns (r: NameScore)
    requires Distinct(subject) && Distinct(listed) && subject != [] && listed != []
    requires |Shared(subject, listed)| <= |subject| && |Shared(subject, listed)| <= |listed|
    ensures var (score, how) := Graded(exact, |subject|, |listed|, |Shared(subject, listed)|);
            r == NameScore(score, exact, Shared(subject, listed), how)
  {
    var shared := Shared(subject, listed);
    SharedBounds(subject, listed);
    var score := Percent(|shared|, |ElementSet(subject) + ElementSet(listed)|);
    var how := Partial;
    if exact {
      score, how := 100, Exact;
    } else if (|subject| >= 2 && |shared| == |subject|) || (|listed| >= 2 && |shared| == |listed|) {
      score, how := Max(score, 90), TokenOverlap;
    } else if |shared| >= 2 {
      score, how := Max(score, 70 + (|shared| - 2) * 5), TokenOverlap;
    } else if |shared| == 1 && |subject| <= 2 && |listed| <= 2 {
      score, how := Min(score, 65), Partial;
    } else if |shared| == 0 {
      score, how := 0, NoMatch;
    }
    r := NameScore(score, exact, shared, how);
  }

  lemma {:induction false} NoTokensNoScore(fold: Folding, subject: string, candidates: seq<string>)
    requires NormaliseTokenSet(fold, subject) == []
    ensures BestOf(fold, subject, candidates) == NOTHING
  {
    if candidates != [] {
      NoTokensNoScore(fold, subject, candidates[..|candidates| - 1]);
    }
  }

  ghost predicate IsTop(fold: Folding, subject: string, candidates: seq<string>, score: nat) {
    && (score == 0 || exists c :: c in candidates && PairScore(fold, subject, c) == score)
    && forall c :: c in candidates ==> PairScore(fold, subject, c) <= score
  }

  lemma {:induction false} BestIsTop(fold: Folding, subject: string, candidates: seq<string>)
    ensures IsTop(fold, subject, candidates, BestOf(fold, subject, candidates).score)
  {
    hide PairOf;
    if candidates != [] {
      var n := |candidates| - 1;
      BestIsTop(fold, subject, candidates[..n]);
      assert candidates == candidates[..n] + [candidates[n]];
      assert PairScore(fold, subject, candidates[n]) == PairOf(fold, subject, candidates[n]).score;
    }
  }

  /** More aliases never lower the score; their order and repetitions do not count. */
  lemma AliasesOnlyRaise(fold: Folding, subject: string, few: seq<string>, many: seq<string>)
    requires forall c :: c in few ==> c in many
    ensures BestOf(fold, subject, few).score <= BestOf(fold, subject, many).score
    ensures (forall c :: c in many ==> c in few) ==>
      BestOf(fold, subject, few).score == BestOf(fold, subject, many).score
  {
    hide PairOf;
    BestIsTop(fold, subject, few);
    BestIsTop(fold, subject, many);
  }

  function Normalised(fold: Folding, names: seq<string>): (r: seq<string>)
    ensures |r| == |names|
    ensures forall i :: 0 <= i < |r| ==> r[i] == NormaliseSanctionsName(fold, names[i])
  {
    seq(|names|, i requires 0 <= i < |names| => NormaliseSanctionsName(fold, names[i]))
  }

  /** The score sees a candidate's tokens only. */
  lemma PairOfSameTokens(fold: Folding, subject: string, a: string, b: string)
    requires Tokens(fold, a) == Tokens(fold, b)
    ensures PairOf(fold, subject, a) == PairOf(fold, subject, b)
  {
  }

  lemma {:induction false} BestOfSameTokens(fold: Folding, subject: string, xs: seq<string>, ys: seq<string>)
    requires |xs| == |ys| && forall i :: 0 <= i < |xs| ==> Tokens(fold, xs[i]) == Tokens(fold, ys[i])
    ensures BestOf(fold, subject, xs) == BestOf(fold, subject, ys)
  {
    hide PairOf, Tokens;
    if xs != [] {
      var n := |xs| - 1;
      BestOfSameTokens(fold, subject, xs[..n], ys[..n]);
      PairOfSameTokens(fold, subject, xs[n], ys[n]);
    }
  }

  predicate Blank(s: string) {
    forall i :: 0 <= i < |s| ==> Space(s[i])
  }

  lemma {:induction false} LeadingBlanks(left: string, s: string)
    requires Blank(left)
    ensures Kept(Pieces("", left + s)) == Kept(Pieces("", s))
  {
    if left == "" {
      assert left + s == s;
    } else {
      assert (left + s)[1..] == left[1..] + s;
      LeadingBlanks(left[1..], s);
      var rest := Pieces("", left[1..] + s);
      assert Pieces("", left + s) == [""] + rest;
      assert ([""] + rest)[1..] == rest;
    }
  }

  lemma {:induction false} OnlyBlanks(cur: string, right: string)
    requires Blank(right)
    ensures Kept(Pieces(cur, right)) == Kept([cur])
    decreases |right|
  {
    if right != "" {
      OnlyBlanks("", right[1..]);
      assert ([cur] + Pieces("", right[1..]))[1..] == Pieces("", right[1..]);
      assert Kept([""]) == Kept([]);
    }
  }

  lemma {:induction false} TrailingBlanks(cur: string, s: string, right: string)
    requires Blank(right)
    ensures Kept(Pieces(cur, s + right)) == Kept(Pieces(cur, s))
    decreases |s|
  {
    if s == "" {
      assert s + right == right;
      OnlyBlanks(cur, right);
    } else {
      assert (s + right)[1..] == s[1..] + right;
      if Space(s[0]) {
        TrailingBlanks("", s[1..], right);
        var longer, rest := Pieces("", s[1..] + right), Pieces("", s[1..]);
        assert ([cur] + longer)[1..] == longer && ([cur] + rest)[1..] == rest;
      } else {
        TrailingBlanks(cur + [s[0]], s[1..], right);
      }
    }
  }

  /** Trimming white space off a name leaves its tokens. */
  lemma TrimKeepsTokens(fold: Folding, name: string, trimmed: string, left: string, right: string)
    requires fold(name) == left + fold(trimmed) + right && Blank(left) && Blank(right)
    ensures Tokens(fold, name) == Tokens(fold, trimmed)
  {
    var body := Blanked(fold(trimmed));
    assert Blanked(fold(name)) == left + (body + right);
    LeadingBlanks(left, body + right);
    TrailingBlanks("", body, right);
  }

  /**
   Screening against an entry as it is stored, the name trimmed and the aliases normalised, gives the very result the
   raw names give.
   */
  lemma StoredNamesScoreTheSame(
      fold: Folding, subject: string, name: string, trimmed: string, left: string, right: string, aliases: seq<string>)
    requires FixesPlain(fold) && fold(name) == left + fold(trimmed) + right && Blank(left) && Blank(right)
    ensures BestOf(fold, subject, [trimmed] + Normalised(fold, aliases)) == BestOf(fold, subject, [name] + aliases)
  {
    hide Tokens, NormaliseSanctionsName;
    TrimKeepsTokens(fold, name, trimmed, left, right);
    forall i | 0 <= i < |aliases| ensures Tokens(fold, Normalised(fold, aliases)[i]) == Tokens(fold, aliases[i]) {
      TokensOfNormalised(fold, aliases[i]);
    }
    BestOfSameTokens(fold, subject, [trimmed] + Normalised(fold, aliases), [name] + aliases);
  }

  // ---- The conditions are met ----

  lemma TokenSetOfJoin(fold: Folding, tokens: seq<string>)
    requires FixesPlain(fold) && WordsAll(tokens) && tokens != []
    ensures NormaliseSanctionsName(fold, Join(tokens)) == Join(tokens)
    ensures NormaliseTokenSet(fold, Join(tokens)) == Unique(tokens)
  {
    TokensOfJoin(fold, tokens);
    JoinIsPlain(tokens);
    SplitOfJoin(tokens);
  }

  lemma {:induction false} UniqueOfDistinct(s: seq<string>)
    requires Distinct(s)
    ensures Unique(s) == s
  {
    if s != [] {
      UniqueOfDistinct(s[..|s| - 1]);
      assert s == s[..|s| - 1] + [s[|s| - 1]];
    }
  }

  /** A legal form alone leaves no token: the name does not match itself. */
  lemma NoiseScores0(fold: Folding)
    requires FixesPlain(fold)
    ensures PairScore(fold, "ltd", "ltd") == 0
  {
    hide Unique;
    assert fold("ltd") == "ltd" && Blanked("ltd") == "ltd";
    SplitReadsWord("", "ltd", "");
    assert "ltd" + "" == "ltd" && "" + "ltd" == "ltd";
    assert Kept(["ltd"]) == [];
  }

  /** So does a name without Latin letters or digits, whatever the script. */
  lemma ForeignScores0(fold: Folding, name: string)
    requires forall i :: 0 <= i < |fold(name)| ==> !LetterOrDigit(fold(name)[i])
    ensures NormaliseTokenSet(fold, name) == [] && PairScore(fold, name, name) == 0
  {
    OnlyBlanks("", Blanked(fold(name)));
  }

  /** One name is the other's only token, repeated. */
  lemma RepeatedTokenScores65(fold: Folding)
    requires FixesPlain(fold)
    ensures PairScore(fold, "ali", "ali ali") == 65
  {
    hide Pieces, Kept, Blanked, PairScore;
    var once, twice := ["ali"], ["ali", "ali"];
    assert Join(once) == "ali";
    assert twice[1..] == once && Join(twice) == "ali ali";
    TokenSetOfJoin(fold, once);
    TokenSetOfJoin(fold, twice);
    assert twice[..1] == once && once[..0] == [];
    assert Unique(once) == ["ali"] == Unique(twice);
    EqualTokenSetsScore(fold, "ali", "ali ali");
  }

  /** Two names that share nine tokens and have one more each. */
  lemma NineSharedTokensExceed100(fold: Folding, nine: seq<string>, x: string, y: string)
    requires FixesPlain(fold) && |nine| == 9 && x != y
    requires WordsAll(nine + [x]) && WordsAll(nine + [y]) && Distinct(nine + [x]) && Distinct(nine + [y])
    ensures PairScore(fold, Join(nine + [x]), Join(nine + [y])) > 100
  {
    var s, l := nine + [x], nine + [y];
    TokenSetOfJoin(fold, s);
    TokenSetOfJoin(fold, l);
    UniqueOfDistinct(s);
    UniqueOfDistinct(l);
    SharedCount(s, l);
    assert nine == s[..9];
    ElementCount(nine);
    OneBeyond(nine, x, y);
    Above100Iff(fold, Join(s), Join(l));
  }

  lemma OneBeyond(common: seq<string>, x: string, y: string)
    requires x != y && x !in common && y !in common
    ensures ElementSet(common + [x]) * ElementSet(common + [y]) == ElementSet(common)
  {
  }

  function Letters(): (r: seq<string>)
    ensures |r| == 9 && forall i :: 0 <= i < 9 ==> r[i] == [('a' as int + i) as char]
  {
    seq(9, i requires 0 <= i < 9 => [('a' as int + i) as char])
  }

  /** The names "a b c d e f g h i x" and "a b c d e f g h i y". */
  lemma ScoreAbove100(fold: Folding)
    requires FixesPlain(fold)
    ensures PairScore(fold, Join(Letters() + ["x"]), Join(Letters() + ["y"])) > 100
  {
    var nine := Letters();
    forall i, j | 0 <= i < j < 9 ensures nine[i] != nine[j] {
      assert nine[i][0] != nine[j][0];
    }
    forall i | 0 <= i < 9 ensures Word(nine[i]) && !Noise(nine[i]) && nine[i] != "x" && nine[i] != "y" {
      assert |nine[i]| == 1 && nine[i][0] != 'x' && nine[i][0] != 'y';
    }
    assert Word("x") && Word("y");
    NineSharedTokensExceed100(fold, nine, "x", "y");
  }
}
