/** The command palette: token match, scoring, stable ranking and a cap of fifty. */
module CommandPalette {
  import opened Collections
  import opened Sorting

  /** What a palette entry matches on. */
  datatype Item = Item(name: string, keywords: string)

  const CAP: nat := 50

  function LowerChar(c: char): char {
    if 'A' <= c <= 'Z' then (c as int + 32) as char else c
  }

  /** Text with its characters folded to lower case one by one. */
  function Lower(s: string): (r: string)
    ensures |r| == |s| && forall i :: 0 <= i < |s| ==> r[i] == LowerChar(s[i])
  {
    if s == "" then "" else Lower(DropLast(s)) + [LowerChar(Last(s))]
  }

  /** The ASCII characters of JavaScript's white space class. */
  predicate IsSpace(c: char) {
    c == ' ' || c == '\t' || c == '\n' || c == '\r' || c == '\U{0B}' || c == '\U{0C}'
  }

  // ---- text ---------------------------------------------------------------------------------

  predicate At(hay: string, needle: string, i: int) {
    0 <= i && i + |needle| <= |hay| && hay[i..i + |needle|] == needle
  }

  ghost predicate Includes(hay: string, needle: string) {
    exists i :: At(hay, needle, i)
  }

  predicate StartsWith(hay: string, needle: string) {
    At(hay, needle, 0)
  }

  /** String.prototype.includes. */
  method Contains(hay: string, needle: string) returns (found: bool)
    ensures found <==> Includes(hay, needle)
  {
    var i := 0;
    while i + |needle| <= |hay|
      invariant 0 <= i
      invariant forall j :: 0 <= j < i ==> !At(hay, needle, j)
      decreases |hay| - i
    {
      if At(hay, needle, i) {
        return true;
      }
      i := i + 1;
    }
    return false;
  }

  lemma IncludesTransitive(a: string, b: string, c: string)
    requires Includes(a, b) && Includes(b, c)
    ensures Includes(a, c)
  {
    var i :| At(a, b, i);
    var j :| At(b, c, j);
    assert b[j..j + |c|] == c && a[i..i + |b|] == b;
    forall k | 0 <= k < |c| ensures a[i + j + k] == c[k] {
      assert b[j..j + |c|][k] == b[j + k] == a[i..i + |b|][j + k];
    }
    assert a[i + j..i + j + |c|] == c;
    assert At(a, c, i + j);
  }

  function TrimLeft(s: string): (r: string)
    ensures |r| <= |s| && r == s[|s| - |r|..] && (r != "" ==> !IsSpace(r[0]))
    ensures forall i :: 0 <= i < |s| - |r| ==> IsSpace(s[i])
  {
    if s != "" && IsSpace(s[0]) then TrimLeft(s[1..]) else s
  }

  function TrimRight(s: string): (r: string)
    ensures |r| <= |s| && r == s[..|r|] && (r != "" ==> !IsSpace(Last(r)))
    ensures forall i :: |r| <= i < |s| ==> IsSpace(s[i])
  {
    if s != "" && IsSpace(Last(s)) then TrimRight(DropLast(s)) else s
  }

  function Trim(s: string): string {
    TrimRight(TrimLeft(s))
  }

  /** The maximal runs of non-space characters, in order. */
  function Tokens(s: string): seq<string>
    decreases |s|
  {
    if s == "" then []
    else if IsSpace(s[0]) then Tokens(s[1..])
    else [s[..WordLength(s)]] + Tokens(s[WordLength(s)..])
  }

  /** How many characters come before the first space. */
  function WordLength(s: string): (n: nat)
    ensures n <= |s| && (n == 0 <==> s == "" || IsSpace(s[0]))
  {
    if s == "" || IsSpace(s[0]) then 0 else 1 + WordLength(s[1..])
  }

  /** Upper- and lower-case ASCII letters fold together, and nothing else does. */
  ghost predicate SameLetter(a: char, b: char) {
    || a == b
    || ('A' <= a <= 'Z' && b as int == a as int + 32)
    || ('A' <= b <= 'Z' && a as int == b as int + 32)
  }

  lemma OneFolded(a: char, b: char)
    ensures LowerChar(a) == LowerChar(b) <==> SameLetter(a, b)
  {
  }

  lemma CaseFolded(a: string, b: string)
    ensures Lower(a) == Lower(b) <==> |a| == |b| && forall i :: 0 <= i < |a| ==> SameLetter(a[i], b[i])
  {
    hide Lower, LowerChar, SameLetter;
    forall i | 0 <= i < |a| && i < |b| ensures Lower(a)[i] == Lower(b)[i] <==> SameLetter(a[i], b[i]) {
      OneFolded(a[i], b[i]);
    }
    if |a| == |b| && forall i :: 0 <= i < |a| ==> SameLetter(a[i], b[i]) {
      assert forall i :: 0 <= i < |a| ==> Lower(a)[i] == Lower(b)[i];
    }
  }

  // ---- words --------------------------------------------------------------------------------

  /** The blank and the control characters from tab to carriage return. */
  ghost predicate White(c: char) {
    c as int == 32 || 9 <= c as int <= 13
  }

  /** Positions `i` up to `i + n` hold a run of non-blanks that blanks or the ends of the text enclose. */
  ghost predicate IsRun(s: string, i: int, n: int) {
    && 0 <= i && 0 < n && i + n <= |s|
    && (forall k :: i <= k < i + n ==> !White(s[k]))
    && (i > 0 ==> White(s[i - 1]))
    && (i + n < |s| ==> White(s[i + n]))
  }

  lemma WhiteIsSpace(c: char)
    ensures White(c) <==> IsSpace(c)
  {
  }

  lemma RunMeaning(s: string, i: int, n: int)
    ensures IsRun(s, i, n) <==>
      && 0 <= i && 0 < n && i + n <= |s|
      && (forall k :: i <= k < i + n ==> !IsSpace(s[k]))
      && (i > 0 ==> IsSpace(s[i - 1])) && (i + n < |s| ==> IsSpace(s[i + n]))
  {
    forall c ensures White(c) <==> IsSpace(c) {
      WhiteIsSpace(c);
    }
    hide IsSpace, White;
  }

  lemma {:induction false} WordMeaning(s: string)
    ensures forall k :: 0 <= k < WordLength(s) ==> !IsSpace(s[k])
    ensures WordLength(s) < |s| ==> IsSpace(s[WordLength(s)])
  {
    if s == "" || IsSpace(s[0]) {
    } else {
      WordMeaning(s[1..]);
      assert forall k :: 1 <= k < |s| ==> s[k] == s[1..][k - 1];
    }
  }

  /** A word at the start is a run, and any other run starts behind it. */
  lemma FirstRun(s: string, e: nat, i: int, n: int)
    requires 0 < e <= |s| && (e < |s| ==> IsSpace(s[e]))
    requires forall k :: 0 <= k < e ==> !IsSpace(s[k])
    ensures IsRun(s, 0, e)
    ensures IsRun(s, i, n) ==> (i == 0 && n == e) || i > e
  {
    RunMeaning(s, 0, e);
    RunMeaning(s, i, n);
    hide IsRun, IsSpace;
    if IsRun(s, i, n) {
      assert !IsSpace(s[i]);
    }
  }

  /** Runs of a text's end, with a blank on either side of the cut, are the runs of the text from there on. */
  lemma RunsBehind(s: string, d: nat, i: int, n: int)
    requires 0 < d <= |s| && (IsSpace(s[d - 1]) || d == |s| || IsSpace(s[d]))
    ensures i >= 0 ==> (IsRun(s[d..], i, n) <==> IsRun(s, d + i, n))
  {
    var rest := s[d..];
    RunMeaning(rest, i, n);
    RunMeaning(s, d + i, n);
    hide IsRun, IsSpace;
    assert forall k :: 0 <= k < |rest| ==> rest[k] == s[d + k];
    assert forall k :: d <= k < |s| ==> s[k] == rest[k - d];
  }

  ghost predicate HasRun(s: string, t: string) {
    exists i :: IsRun(s, i, |t|) && s[i..i + |t|] == t
  }

  lemma RunShifts(s: string, t: string, d: nat)
    requires 0 < d <= |s| && (IsSpace(s[d - 1]) || d == |s| || IsSpace(s[d]))
    ensures HasRun(s[d..], t) <==> exists i :: i >= d && IsRun(s, i, |t|) && s[i..i + |t|] == t
  {
    hide IsSpace;
    if i :| IsRun(s[d..], i, |t|) && s[d..][i..i + |t|] == t {
      RunsBehind(s, d, i, |t|);
      assert s[d..][i..i + |t|] == s[d + i..d + i + |t|];
      assert IsRun(s, d + i, |t|) && s[d + i..d + i + |t|] == t;
    }
    if i :| i >= d && IsRun(s, i, |t|) && s[i..i + |t|] == t {
      RunsBehind(s, d, i - d, |t|);
      assert s[d..][i - d..i - d + |t|] == s[i..i + |t|];
      assert IsRun(s[d..], i - d, |t|) && s[d..][i - d..i - d + |t|] == t;
    }
  }

  lemma BlankFirst(s: string, t: string)
    requires s != "" && IsSpace(s[0])
    ensures HasRun(s, t) <==> HasRun(s[1..], t)
  {
    RunShifts(s, t, 1);
    forall n ensures !IsRun(s, 0, n) {
      RunMeaning(s, 0, n);
    }
    hide IsSpace;
  }

  lemma WordFirst(s: string, t: string)
    requires s != "" && !IsSpace(s[0])
    ensures var e := WordLength(s); HasRun(s, t) <==> t == s[..e] || HasRun(s[e..], t)
  {
    var e := WordLength(s);
    WordMeaning(s);
    RunShifts(s, t, e);
    FirstRun(s, e, 0, 0);
    hide IsSpace, WordLength, IsRun;
    if t == s[..e] {
      assert |t| == e && s[0..0 + |t|] == t;
    }
    if i :| IsRun(s, i, |t|) && s[i..i + |t|] == t {
      FirstRun(s, e, i, |t|);
      assert i == 0 ==> t == s[..e];
    }
  }

  /** The tokens of a query are its words: each run of non-blanks, and nothing else. */
  lemma {:induction false} TokensAreWords(s: string, t: string)
    ensures t in Tokens(s) <==> HasRun(s, t)
    decreases |s|
  {
    if s == "" {
    } else if IsSpace(s[0]) {
      TokensAreWords(s[1..], t);
      BlankFirst(s, t);
    } else {
      TokensAreWords(s[WordLength(s)..], t);
      WordFirst(s, t);
    }
  }

  // ---- matching and scoring -------------------------------------------------------------------

  function Hay(it: Item): string {
    Lower(it.name + " " + it.keywords)
  }

  ghost predicate Matches(it: Item, tokens: seq<string>) {
    forall t :: t in tokens ==> Includes(Hay(it), t)
  }

  ghost function Score(it: Item, q: string): int {
    (if Includes(Hay(it), q) then 50 else 0)
    + (if StartsWith(Lower(it.name), q) then 40 else 0)
    + (if Includes(Lower(it.name), q) then 20 else 0)
  }

  lemma LabelInHay(it: Item)
    ensures Includes(Hay(it), Lower(it.name))
  {
    assert Hay(it)[0..0 + |Lower(it.name)|] == Lower(it.name);
    assert At(Hay(it), Lower(it.name), 0);
  }

  /** Only four of the eight sums occur: a label match is a match, and a prefix is a part. */
  lemma ScoreValues(it: Item, q: string)
    ensures Score(it, q) in {0, 50, 70, 110}
    ensures Score(it, q) == 110 <==> StartsWith(Lower(it.name), q)
    ensures Score(it, q) >= 70 <==> Includes(Lower(it.name), q)
    ensures Score(it, q) >= 50 <==> Includes(Lower(it.name + " " + it.keywords), q)
  {
    LabelInHay(it);
    if Includes(Lower(it.name), q) {
      IncludesTransitive(Hay(it), Lower(it.name), q);
    }
    if StartsWith(Lower(it.name), q) {
      assert At(Lower(it.name), q, 0);
    }
  }

  lemma PartOf(s: string, i: nat, n: nat)
    requires i + n <= |s|
    ensures Includes(s, s[i..i + n])
  {
    assert At(s, s[i..i + n], i);
  }

  lemma TokensOccur(s: string, t: string)
    requires t in Tokens(s)
    ensures Includes(s, t)
  {
    TokensAreWords(s, t);
    hide Tokens;
    var i :| IsRun(s, i, |t|) && s[i..i + |t|] == t;
    PartOf(s, i, |t|);
  }

  /** An item matches exactly if each word of the query occurs in its folded label and keywords. */
  lemma MatchesMeaning(it: Item, q: string)
    ensures Matches(it, Tokens(q)) <==>
      forall i, n :: IsRun(q, i, n) ==> Includes(Lower(it.name + " " + it.keywords), q[i..i + n])
  {
    assert Lower(it.name + " " + it.keywords) == Hay(it);
    hide *;
    if Matches(it, Tokens(q)) {
      forall i, n | IsRun(q, i, n) ensures Includes(Hay(it), q[i..i + n]) {
        RunIsToken(q, i, n);
        MatchesToken(it, Tokens(q), q[i..i + n]);
      }
    }
    if forall i, n :: IsRun(q, i, n) ==> Includes(Hay(it), q[i..i + n]) {
      forall t | t in Tokens(q) ensures Includes(Hay(it), t) {
        var i := TokenIsRun(q, t);
      }
      MatchesAllOf(it, Tokens(q));
    }
  }

  lemma RunIsToken(q: string, i: int, n: int)
    requires IsRun(q, i, n)
    ensures 0 <= i <= i + n <= |q| && q[i..i + n] in Tokens(q)
  {
    var t := q[i..i + n];
    TokensAreWords(q, t);
    hide Tokens, White;
    assert |t| == n && IsRun(q, i, |t|) && q[i..i + |t|] == t;
  }

  lemma TokenIsRun(q: string, t: string) returns (i: int)
    requires t in Tokens(q)
    ensures IsRun(q, i, |t|) && q[i..i + |t|] == t
  {
    TokensAreWords(q, t);
    hide Tokens, White;
    i :| IsRun(q, i, |t|) && q[i..i + |t|] == t;
  }

  lemma MatchesToken(it: Item, tokens: seq<string>, t: string)
    requires Matches(it, tokens) && t in tokens
    ensures Includes(Hay(it), t)
  {
  }

  lemma MatchesAllOf(it: Item, tokens: seq<string>)
    requires forall t :: t in tokens ==> Includes(Hay(it), t)
    ensures Matches(it, tokens)
  {
  }

  /** Text that holds the whole query holds each of its tokens, so no such item is filtered out. */
  lemma WholeQueryMatches(it: Item, q: string)
    requires Includes(Lower(it.name + " " + it.keywords), q)
    ensures Matches(it, Tokens(q))
  {
    forall t | t in Tokens(q) ensures Includes(Hay(it), t) {
      TokensOccur(q, t);
      IncludesTransitive(Hay(it), q, t);
    }
  }

  // ---- ranking --------------------------------------------------------------------------------

  datatype Scored = Scored(item: Item, score: int, index: nat)

  /** A stable sort by descending score: equal scores keep their original order. */
  predicate Ahead(a: Scored, b: Scored) {
    a.score > b.score || (a.score == b.score && a.index < b.index)
  }

  lemma AheadIsOrder()
    ensures StrictWeakOrder(Ahead)
  {
  }

  /** The matches in their original order. */
  ghost function Candidates(items: seq<Item>, q: string, tokens: seq<string>): seq<Scored> {
    if items == [] then []
    else
      var it := Last(items);
      Candidates(DropLast(items), q, tokens)
      + if Matches(it, tokens) then [Scored(it, Score(it, q), |items| - 1)] else []
  }

  /** A ranking of the items that match the trimmed query `q` and its tokens. */
  ghost predicate IsRanking(ranking: seq<Scored>, items: seq<Item>, q: string, tokens: seq<string>) {
    multiset(ranking) == multiset(Candidates(items, q, tokens)) && InOrder(ranking, Ahead)
  }

  function ItemsOf(s: seq<Scored>): (r: seq<Item>)
    ensures |r| == |s| && forall i :: 0 <= i < |s| ==> r[i] == s[i].item
  {
    if s == [] then [] else ItemsOf(DropLast(s)) + [Last(s).item]
  }

  function Slice<T>(s: seq<T>): (r: seq<T>)
    ensures r <= s && |r| == if |s| < 50 then |s| else 50
  {
    if |s| <= CAP then s else s[..CAP]
  }

  // ---- the filter -----------------------------------------------------------------------------

  method MatchesAll(it: Item, tokens: seq<string>) returns (yes: bool)
    ensures yes <==> Matches(it, tokens)
  {
    var i := 0;
    while i < |tokens|
      invariant 0 <= i <= |tokens|
      invariant forall j :: 0 <= j < i ==> Includes(Hay(it), tokens[j])
    {
      var found := Contains(Hay(it), tokens[i]);
      if !found {
        assert tokens[i] in tokens;
        return false;
      }
      i := i + 1;
    }
    return true;
  }

  method ScoreOf(it: Item, q: string) returns (score: int)
    ensures score == Score(it, q)
  {
    score := 0;
    var inHay := Contains(Hay(it), q);
    if inHay { score := score + 50; }
    if StartsWith(Lower(it.name), q) { score := score + 40; }
    var inLabel := Contains(Lower(it.name), q);
    if inLabel { score := score + 20; }
  }

  method FuzzyFilter(items: seq<Item>, query: string) returns (result: seq<Item>, ghost ranking: seq<Scored>)
    ensures query == "" ==> result == Slice(items)
    ensures query != "" ==> IsRanking(ranking, items, Trim(Lower(query)), Tokens(Trim(Lower(query))))
    ensures query != "" ==> result == Slice(ItemsOf(ranking))
  {
    hide *;
    if query == "" {
      return Slice(items), [];
    }
    var q := Trim(Lower(query));
    var tokens := Tokens(q);
    var out := Scan(items, q, tokens);
    AheadIsOrder();
    var sorted := SortSlice(out, Ahead);
    ranking := sorted;
    result := Slice(ItemsOf(sorted));
    RankingOf(ranking, items, q, tokens);
  }

  lemma RankingOf(ranking: seq<Scored>, items: seq<Item>, q: string, tokens: seq<string>)
    requires multiset(ranking) == multiset(Candidates(items, q, tokens)) && InOrder(ranking, Ahead)
    ensures IsRanking(ranking, items, q, tokens)
  {
  }

  /** The loop over the items. */
  method Scan(items: seq<Item>, q: string, tokens: seq<string>) returns (out: seq<Scored>)
    ensures out == Candidates(items, q, tokens)
  {
    hide Matches, Score;
    out := [];
    var i := 0;
    while i < |items|
      invariant 0 <= i <= |items|
      invariant out == Candidates(items[..i], q, tokens)
    {
      var it := items[i];
      assert DropLast(items[..i + 1]) == items[..i];
      var yes := MatchesAll(it, tokens);
      if yes {
        var score := ScoreOf(it, q);
        out := out + [Scored(it, score, i)];
      }
      i := i + 1;
    }
    assert items[..i] == items;
  }

  // ---- what the ranking means --------------------------------------------------------------------

  ghost predicate IsCandidate(s: Scored, items: seq<Item>, q: string, tokens: seq<string>) {
    s.index < |items| && s.item == items[s.index] && Matches(s.item, tokens) && s.score == Score(s.item, q)
  }

  lemma {:induction false} CandidateMember(items: seq<Item>, q: string, tokens: seq<string>, s: Scored)
    ensures s in Candidates(items, q, tokens) <==> IsCandidate(s, items, q, tokens)
  {
    hide Matches, Score;
    if items == [] {
    } else {
      CandidateMember(DropLast(items), q, tokens, s);
    }
  }

  lemma {:induction false} CandidatesDiffer(items: seq<Item>, q: string, tokens: seq<string>)
    ensures Distinct(Candidates(items, q, tokens))
  {
    hide Matches, Score;
    if items == [] {
    } else {
      var front := Candidates(DropLast(items), q, tokens);
      CandidatesDiffer(DropLast(items), q, tokens);
      forall i | 0 <= i < |front| ensures front[i].index < |items| - 1 {
        CandidateMember(DropLast(items), q, tokens, front[i]);
      }
    }
  }

  lemma SameContents(a: seq<Scored>, b: seq<Scored>)
    requires multiset(a) == multiset(b)
    ensures forall s :: s in a <==> s in b
    ensures Distinct(a) <==> Distinct(b)
  {
    forall s ensures s in a <==> s in b {
      assert s in a <==> s in multiset(a);
      assert s in b <==> s in multiset(b);
    }
    DistinctCounts(a);
    DistinctCounts(b);
  }

  lemma StrictlyAhead(ranking: seq<Scored>, i: nat, j: nat)
    requires InOrder(ranking, Ahead) && Distinct(ranking) && i < j < |ranking|
    requires forall s, t :: s in ranking && t in ranking && s.index == t.index ==> s == t
    ensures Ahead(ranking[i], ranking[j])
  {
    assert ranking[i] in ranking && ranking[j] in ranking;
    assert !Ahead(ranking[j], ranking[i]);
  }

  /**
   The ranking lists each matching item once, by score and then by original position, and
   whatever the cap cut off is behind everything shown.
   */
  lemma RankingMeaning(ranking: seq<Scored>, items: seq<Item>, q: string, tokens: seq<string>)
    requires IsRanking(ranking, items, q, tokens)
    ensures forall s :: s in ranking <==> IsCandidate(s, items, q, tokens)
    ensures Distinct(ranking)
    ensures forall i, j :: 0 <= i < j < |ranking| ==> Ahead(ranking[i], ranking[j])
    ensures forall i, j :: 0 <= i < |Slice(ranking)| <= j < |ranking| ==> ranking[i].score >= ranking[j].score
    ensures Slice(ItemsOf(ranking)) == ItemsOf(Slice(ranking))
  {
    var c := Candidates(items, q, tokens);
    hide Candidates, Matches, Score, InOrder, Distinct;
    CandidatesDiffer(items, q, tokens);
    SameContents(ranking, c);
    forall s ensures s in ranking <==> IsCandidate(s, items, q, tokens) {
      CandidateMember(items, q, tokens, s);
    }
    forall i, j | 0 <= i < j < |ranking| ensures Ahead(ranking[i], ranking[j]) {
      StrictlyAhead(ranking, i, j);
    }
  }

  /** The items, the query and its tokens determine the ranking. */
  lemma RankingUnique(a: seq<Scored>, b: seq<Scored>, items: seq<Item>, q: string, tokens: seq<string>)
    requires IsRanking(a, items, q, tokens) && IsRanking(b, items, q, tokens)
    ensures a == b
  {
    RankingMeaning(a, items, q, tokens);
    hide Candidates, Matches, Score;
    forall x, y | x in a && y in a && x != y ensures Ahead(x, y) || Ahead(y, x) {
      var i :| 0 <= i < |a| && a[i] == x;
      var j :| 0 <= j < |a| && a[j] == y;
    }
    SortedUnique(a, b, Ahead);
  }

  // ---- blank queries -------------------------------------------------------------------------------

  ghost predicate Blank(s: string) {
    forall i :: 0 <= i < |s| ==> IsSpace(s[i])
  }

  lemma {:induction false} BlankTrimmed(s: string)
    requires Blank(s)
    ensures TrimLeft(s) == ""
  {
    if s == "" {
    } else {
      BlankTrimmed(s[1..]);
    }
  }

  lemma BlankTokens(query: string)
    requires Blank(query)
    ensures Trim(Lower(query)) == "" && Tokens("") == []
  {
    assert Blank(Lower(query));
    BlankTrimmed(Lower(query));
  }

  lemma ByIndex(c: seq<Scored>)
    requires forall i :: 0 <= i < |c| ==> c[i].score == 110 && c[i].index == i
    ensures InOrder(c, Ahead) && Separates(Ahead, c)
  {
  }

  /** With nothing to look for every item matches and ties at the top score, so the order stays. */
  lemma NothingToFind(ranking: seq<Scored>, items: seq<Item>)
    requires IsRanking(ranking, items, "", [])
    ensures ItemsOf(ranking) == items
  {
    EveryItem(items);
    var c := Candidates(items, "", []);
    ByIndex(c);
    hide Candidates, InOrder, Separates;
    SortedUnique(c, ranking, Ahead);
  }

  /** A query of blanks returns what the empty query returns. */
  lemma BlankQuery(items: seq<Item>, query: string, ranking: seq<Scored>)
    ensures Blank(query) && IsRanking(ranking, items, Trim(Lower(query)), Tokens(Trim(Lower(query)))) ==>
      ItemsOf(ranking) == items
  {
    if Blank(query) {
      BlankTokens(query);
      hide *;
      if IsRanking(ranking, items, "", []) {
        NothingToFind(ranking, items);
      }
    }
  }

  lemma {:induction false} EveryItem(items: seq<Item>)
    ensures var c := Candidates(items, "", []);
      |c| == |items| && forall i :: 0 <= i < |c| ==> c[i] == Scored(items[i], 110, i)
  {
    if items == [] {
    } else {
      EveryItem(DropLast(items));
      var it := Last(items);
      assert At(Lower(it.name), "", 0);
      ScoreValues(it, "");
    }
  }
}
