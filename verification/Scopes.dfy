/**
 Normalised scope strings (_normalize_scopes in
 app/repositories/mcp_delegated_token_repository.py).  A list is stripped, sorted and
 joined; a string is only split and joined, its order is kept.
 */
module Scopes {
  datatype Requested = Text(text: string) | ListOf(scopes: seq<string>)

  predicate Space(c: char) {
    c in {' ', '\t', '\n', '\r', '\U{0B}', '\U{0C}'}
  }

  function StripLeft(s: string): string {
    if s != "" && Space(s[0]) then StripLeft(s[1..]) else s
  }

  function StripRight(s: string): string {
    if s != "" && Space(s[|s| - 1]) then StripRight(s[..|s| - 1]) else s
  }

  function Strip(s: string): string {
    StripRight(StripLeft(s))
  }

  /** The part before the first space, which is everything when there is none. */
  function FirstWord(s: string): (w: string)
    ensures w <= s
    ensures |w| < |s| ==> Space(s[|w|])
    ensures forall i :: 0 <= i < |w| ==> !Space(w[i])
  {
    if s == "" || Space(s[0]) then "" else [s[0]] + FirstWord(s[1..])
  }

  /** str.split with no separator. */
  function Words(s: string): seq<string>
    decreases |s|
  {
    if s == "" then []
    else if Space(s[0]) then Words(s[1..])
    else [FirstWord(s)] + Words(s[|FirstWord(s)|..])
  }

  function JoinWords(words: seq<string>): string {
    if words == [] then ""
    else if |words| == 1 then words[0]
    else words[0] + " " + JoinWords(words[1..])
  }

  function StripAll(scopes: seq<string>): seq<string> {
    if scopes == [] then [] else Kept(scopes[0]) + StripAll(scopes[1..])
  }

  function Kept(scope: string): seq<string> {
    if Strip(scope) == "" then [] else [Strip(scope)]
  }

  /** Lexicographic order by character. */
  predicate Leq(a: string, b: string) {
    a == "" || (b != "" && (a[0] < b[0] || (a[0] == b[0] && Leq(a[1..], b[1..]))))
  }

  function Insert(x: string, sorted: seq<string>): seq<string> {
    if sorted == [] then [x]
    else if Leq(x, sorted[0]) then [x] + sorted
    else [sorted[0]] + Insert(x, sorted[1..])
  }

  function Sort(words: seq<string>): seq<string> {
    if words == [] then [] else Insert(words[0], Sort(words[1..]))
  }

  function Normalise(requested: Requested): string {
    match requested
    case ListOf(scopes) => JoinWords(Sort(StripAll(scopes)))
    case Text(text) => JoinWords(Words(Strip(text)))
  }

  // ---------------------------------------------------------------- order of a list does not matter

  lemma {:induction false} LeqTotal(a: string, b: string)
    ensures Leq(a, b) || Leq(b, a)
    ensures Leq(a, b) && Leq(b, a) ==> a == b
  {
    if a != "" && b != "" {
      LeqTotal(a[1..], b[1..]);
      assert a == [a[0]] + a[1..] && b == [b[0]] + b[1..];
    }
  }

  lemma {:induction false} LeqTransitive(a: string, b: string, c: string)
    requires Leq(a, b) && Leq(b, c)
    ensures Leq(a, c)
  {
    if a != "" && a[0] == b[0] == c[0] {
      LeqTransitive(a[1..], b[1..], c[1..]);
    }
  }

  lemma {:induction false} InsertCommutes(x: string, y: string, s: seq<string>)
    ensures Insert(x, Insert(y, s)) == Insert(y, Insert(x, s))
    decreases |s|
  {
    LeqTotal(x, y);
    if s != [] {
      LeqTotal(x, s[0]);
      LeqTotal(y, s[0]);
      if Leq(x, s[0]) && !Leq(y, s[0]) && Leq(y, x) {
        LeqTransitive(y, x, s[0]);
      } else if Leq(y, s[0]) && !Leq(x, s[0]) && Leq(x, y) {
        LeqTransitive(x, y, s[0]);
      } else if !Leq(x, s[0]) && !Leq(y, s[0]) {
        InsertCommutes(x, y, s[1..]);
      }
    }
  }

  lemma {:induction false} SortPulls(words: seq<string>, i: nat)
    requires i < |words|
    ensures Sort(words) == Insert(words[i], Sort(words[..i] + words[i + 1..]))
    decreases i
  {
    var rest := words[..i] + words[i + 1..];
    if i == 0 {
      assert rest == words[1..];
    } else {
      SortPulls(words[1..], i - 1);
      assert rest[0] == words[0] && rest[1..] == words[1..][..i - 1] + words[1..][i..];
      InsertCommutes(words[0], words[i], Sort(rest[1..]));
    }
  }

  /** Where b has the first of a: without the two, the rests are permutations again. */
  lemma Partner(a: seq<string>, b: seq<string>) returns (i: nat)
    requires multiset(a) == multiset(b) && a != []
    ensures i < |b| && b[i] == a[0]
    ensures multiset(a[1..]) == multiset(b[..i] + b[i + 1..])
  {
    assert a[0] in multiset(b);
    i :| i < |b| && b[i] == a[0];
    assert a == [a[0]] + a[1..];
    assert b == b[..i] + [b[i]] + b[i + 1..];
    assert multiset(b[..i] + b[i + 1..]) == multiset(b) - multiset{b[i]};
  }

  lemma {:induction false} SortPermutation(a: seq<string>, b: seq<string>)
    requires multiset(a) == multiset(b)
    ensures Sort(a) == Sort(b)
    decreases |a|
  {
    if a == [] {
      assert |multiset(b)| == 0;
    } else {
      var i := Partner(a, b);
      SortPermutation(a[1..], b[..i] + b[i + 1..]);
      SortPulls(b, i);
    }
  }

  lemma {:induction false} StripAllConcat(a: seq<string>, b: seq<string>)
    ensures StripAll(a + b) == StripAll(a) + StripAll(b)
  {
    if a == [] {
      assert a + b == b;
    } else {
      assert (a + b)[0] == a[0] && (a + b)[1..] == a[1..] + b;
      StripAllConcat(a[1..], b);
    }
  }

  lemma StripAllPulls(before: seq<string>, scope: string, after: seq<string>)
    ensures multiset(StripAll(before + ([scope] + after))) == multiset(Kept(scope)) + multiset(StripAll(before + after))
  {
    StripAllConcat(before, [scope] + after);
    StripAllConcat([scope], after);
    StripAllConcat(before, after);
    assert StripAll([scope]) == Kept(scope);
  }

  lemma {:induction false} StripAllPermutation(a: seq<string>, b: seq<string>)
    requires multiset(a) == multiset(b)
    ensures multiset(StripAll(a)) == multiset(StripAll(b))
    decreases |a|
  {
    if a == [] {
      assert |multiset(b)| == 0;
    } else {
      var i := Partner(a, b);
      assert b == b[..i] + ([b[i]] + b[i + 1..]);
      StripAllPermutation(a[1..], b[..i] + b[i + 1..]);
      StripAllPulls(b[..i], b[i], b[i + 1..]);
    }
  }

  /** Two lists with the same scopes in any order ask for the same token. */
  lemma ListOrderIrrelevant(a: seq<string>, b: seq<string>)
    requires multiset(a) == multiset(b)
    ensures Normalise(ListOf(a)) == Normalise(ListOf(b))
  {
    StripAllPermutation(a, b);
    SortPermutation(StripAll(a), StripAll(b));
  }

  // ---------------------------------------------------------------- a string in normal form stays as it is

  predicate Word(w: string) {
    w != "" && forall i :: 0 <= i < |w| ==> !Space(w[i])
  }

  lemma {:induction false} WordsAreWords(s: string)
    ensures forall w :: w in Words(s) ==> Word(w)
    decreases |s|
  {
    if s != "" {
      if Space(s[0]) {
        WordsAreWords(s[1..]);
      } else {
        WordsAreWords(s[|FirstWord(s)|..]);
      }
    }
  }

  lemma {:induction false} FirstWordOf(w: string, rest: string)
    requires Word(w) && (rest == "" || Space(rest[0]))
    ensures FirstWord(w + rest) == w
  {
    var s := w + rest;
    if |w| == 1 {
      assert s[1..] == rest;
    } else {
      assert s[1..] == w[1..] + rest;
      FirstWordOf(w[1..], rest);
    }
  }

  lemma {:induction false} WordsOfJoin(words: seq<string>)
    requires forall w :: w in words ==> Word(w)
    ensures Words(JoinWords(words)) == words
  {
    if |words| == 1 {
      assert words[0] + "" == words[0];
      FirstWordOf(words[0], "");
    } else if words != [] {
      var rest := JoinWords(words[1..]);
      var s := words[0] + (" " + rest);
      assert JoinWords(words) == s;
      FirstWordOf(words[0], " " + rest);
      assert s[|words[0]|..] == " " + rest && (" " + rest)[1..] == rest;
      WordsOfJoin(words[1..]);
    }
  }

  lemma {:induction false} JoinEnds(words: seq<string>)
    requires words != [] && forall w :: w in words ==> Word(w)
    ensures var s := JoinWords(words); s != "" && !Space(s[0]) && !Space(s[|s| - 1])
  {
    assert Word(words[0]);
    if |words| > 1 {
      JoinEnds(words[1..]);
    }
  }

  /** Normalising a string twice is normalising it once. */
  lemma TextIdempotent(text: string)
    ensures Normalise(Text(Normalise(Text(text)))) == Normalise(Text(text))
  {
    var words := Words(Strip(text));
    WordsAreWords(Strip(text));
    if words != [] {
      JoinEnds(words);
    }
    WordsOfJoin(words);
  }

  // ---------------------------------------------------------------- what stripping, splitting and sorting do

  /** Only white space: the six characters that count as such. */
  ghost predicate Blank(s: string) {
    forall i :: 0 <= i < |s| ==> s[i] in " \t\n\r\U{0B}\U{0C}"
  }

  /** No white space at either end. */
  ghost predicate Trimmed(s: string) {
    s != "" ==> s[0] !in " \t\n\r\U{0B}\U{0C}" && s[|s| - 1] !in " \t\n\r\U{0B}\U{0C}"
  }

  lemma {:induction false} StripLeftIs(lead: string, rest: string)
    requires Blank(lead) && (rest == "" || !Space(rest[0]))
    ensures StripLeft(lead + rest) == rest
  {
    if lead == "" {
      assert lead + rest == rest;
    } else {
      assert (lead + rest)[0] == lead[0] && (lead + rest)[1..] == lead[1..] + rest;
      StripLeftIs(lead[1..], rest);
    }
  }

  lemma {:induction false} StripRightIs(rest: string, trail: string)
    requires Blank(trail) && (rest == "" || !Space(rest[|rest| - 1]))
    ensures StripRight(rest + trail) == rest
  {
    if trail == "" {
      assert rest + trail == rest;
    } else {
      var s, n := rest + trail, |trail| - 1;
      assert s[|s| - 1] == trail[n] && s[..|s| - 1] == rest + trail[..n];
      StripRightIs(rest, trail[..n]);
    }
  }

  /** Stripping takes off the white space on both sides and nothing else. */
  lemma StripIs(lead: string, inner: string, trail: string)
    requires Blank(lead) && Blank(trail) && Trimmed(inner)
    ensures Strip(lead + inner + trail) == inner
  {
    if inner == "" {
      assert Blank(lead + trail) && lead + inner + trail == (lead + trail) + "";
      StripLeftIs(lead + trail, "");
    } else {
      assert lead + inner + trail == lead + (inner + trail);
      assert (inner + trail)[0] == inner[0];
      StripLeftIs(lead, inner + trail);
      StripRightIs(inner, trail);
    }
  }

  /** A scope of a list counts as what is left of it, and not at all when nothing is. */
  lemma KeptIs(lead: string, inner: string, trail: string)
    requires Blank(lead) && Blank(trail) && Trimmed(inner)
    ensures Kept(lead + inner + trail) == if inner == "" then [] else [inner]
  {
    StripIs(lead, inner, trail);
  }

  /** White space in front of a string does not matter to splitting. */
  lemma {:induction false} WordsSkip(lead: string, rest: string)
    requires Blank(lead)
    ensures Words(lead + rest) == Words(rest)
  {
    if lead == "" {
      assert lead + rest == rest;
    } else {
      assert (lead + rest)[0] == lead[0] && (lead + rest)[1..] == lead[1..] + rest;
      WordsSkip(lead[1..], rest);
    }
  }

  /** A word that ends the string, or that white space follows, is the first word. */
  lemma WordsTake(word: string, rest: string)
    requires Word(word) && (rest == "" || Blank([rest[0]]))
    ensures Words(word + rest) == [word] + Words(rest)
  {
    assert rest != "" ==> [rest[0]][0] == rest[0];
    FirstWordOf(word, rest);
    assert (word + rest)[|word|..] == rest;
  }

  lemma {:induction false} InsertKeeps(x: string, s: seq<string>)
    ensures multiset(Insert(x, s)) == multiset(s) + multiset{x}
  {
    if s != [] && !Leq(x, s[0]) {
      InsertKeeps(x, s[1..]);
      assert s == [s[0]] + s[1..];
    }
  }

  /** Sorting keeps every scope as often as it was given. */
  lemma {:induction false} SortKeeps(words: seq<string>)
    ensures multiset(Sort(words)) == multiset(words)
  {
    if words != [] {
      SortKeeps(words[1..]);
      InsertKeeps(words[0], Sort(words[1..]));
      assert words == [words[0]] + words[1..];
    }
  }

  /** The order is the usual one: a prefix comes first, else the first character that differs decides. */
  lemma {:induction false} LeqIs(a: string, b: string)
    ensures Leq(a, b) <==> a <= b || exists i :: 0 <= i < |a| && i < |b| && a[..i] == b[..i] && a[i] < b[i]
  {
    if a != "" && b != "" && a[0] == b[0] {
      var x, y := a[1..], b[1..];
      LeqIs(x, y);
      assert a == [a[0]] + x && b == [b[0]] + y;
      if i :| 0 <= i < |x| && i < |y| && x[..i] == y[..i] && x[i] < y[i] {
        assert a[..i + 1] == [a[0]] + x[..i] && b[..i + 1] == [b[0]] + y[..i] && a[i + 1] < b[i + 1];
      }
      if i :| 0 <= i < |a| && i < |b| && a[..i] == b[..i] && a[i] < b[i] {
        assert i > 0 && x[..i - 1] == a[..i][1..] && y[..i - 1] == b[..i][1..] && x[i - 1] < y[i - 1];
      }
    } else if a != "" && b != "" {
      assert a[..0] == b[..0];
      if i :| 0 <= i < |a| && i < |b| && a[..i] == b[..i] && a[i] < b[i] {
        assert i > 0 ==> a[..i][0] == a[0] && b[..i][0] == b[0];
      }
    }
  }

  // ---------------------------------------------------------------- a string is not sorted

  predicate Ascending(words: seq<string>) {
    forall i :: 0 <= i < |words| - 1 ==> Leq(words[i], words[i + 1])
  }

  lemma {:induction false} InsertAscending(x: string, s: seq<string>)
    requires Ascending(s)
    ensures Ascending(Insert(x, s))
    ensures Insert(x, s) != [] && Insert(x, s)[0] == if s != [] && !Leq(x, s[0]) then s[0] else x
  {
    if s != [] {
      LeqTotal(x, s[0]);
      if !Leq(x, s[0]) {
        assert forall i :: 0 <= i < |s[1..]| ==> s[1..][i] == s[i + 1];
        InsertAscending(x, s[1..]);
      }
    }
  }

  lemma {:induction false} SortIsAscending(words: seq<string>)
    ensures Ascending(Sort(words))
  {
    if words != [] {
      SortIsAscending(words[1..]);
      InsertAscending(words[0], Sort(words[1..]));
    }
  }

  lemma {:induction false} AscendingIsSorted(words: seq<string>)
    requires Ascending(words)
    ensures Sort(words) == words
  {
    if words != [] {
      assert forall i :: 0 <= i < |words[1..]| ==> words[1..][i] == words[i + 1];
      AscendingIsSorted(words[1..]);
      assert [words[0]] + words[1..] == words;
    }
  }

  lemma {:induction false} InsertMembers(x: string, s: seq<string>)
    ensures forall w :: w in Insert(x, s) <==> w == x || w in s
  {
    if s != [] && !Leq(x, s[0]) {
      InsertMembers(x, s[1..]);
    }
  }

  lemma {:induction false} SortMembers(words: seq<string>)
    ensures forall w :: w in Sort(words) <==> w in words
  {
    if words != [] {
      SortMembers(words[1..]);
      InsertMembers(words[0], Sort(words[1..]));
    }
  }

  lemma {:induction false} StripAllOfWords(words: seq<string>)
    requires forall w :: w in words ==> Word(w)
    ensures StripAll(words) == words
  {
    if words != [] {
      assert Word(words[0]) && Strip(words[0]) == words[0];
      StripAllOfWords(words[1..]);
      assert [words[0]] + words[1..] == words;
    }
  }

  /** Joining tells word lists apart. */
  lemma JoinInjective(a: seq<string>, b: seq<string>)
    requires forall w :: w in a ==> Word(w)
    requires forall w :: w in b ==> Word(w)
    ensures JoinWords(a) == JoinWords(b) <==> a == b
  {
    WordsOfJoin(a);
    WordsOfJoin(b);
  }

  lemma TextOfWords(words: seq<string>)
    requires forall w :: w in words ==> Word(w)
    ensures Normalise(Text(JoinWords(words))) == JoinWords(words)
  {
    WordsOfJoin(words);
    if words != [] {
      JoinEnds(words);
    }
  }

  /**
   A string of scopes and the list of the same scopes have one normal form exactly when the
   string names them in ascending order: only the list is sorted.
   */
  lemma FormsAgreeIff(words: seq<string>)
    requires forall w :: w in words ==> Word(w)
    ensures Normalise(Text(JoinWords(words))) == Normalise(ListOf(words)) <==> Ascending(words)
  {
    TextOfWords(words);
    StripAllOfWords(words);
    SortMembers(words);
    JoinInjective(words, Sort(words));
    SortIsAscending(words);
    if Ascending(words) {
      AscendingIsSorted(words);
    }
  }

  /** The same for any string at all, with whatever spacing. */
  lemma TextAgreesIff(text: string)
    ensures Normalise(Text(text)) == Normalise(ListOf(Words(Strip(text)))) <==> Ascending(Words(Strip(text)))
  {
    var words := Words(Strip(text));
    WordsAreWords(Strip(text));
    TextOfWords(words);
    FormsAgreeIff(words);
  }

  /** A string keeps its order, so it can ask for another token than a list of the same scopes. */
  lemma TextKeepsOrder()
    ensures Normalise(Text("b a")) == "b a"
    ensures Normalise(ListOf(["b", "a"])) == "a b"
  {
    var b, a := "b", "a";
    assert b + " " + a == "b a";
    WordsOfJoin([b, a]);
    JoinEnds([b, a]);
    assert StripAll(["a"]) == ["a"] + StripAll([]);
    assert StripAll(["b", "a"]) == ["b"] + StripAll(["a"]);
    assert Sort(["a"]) == Insert("a", Sort([]));
    assert Sort(["b", "a"]) == Insert("b", Sort(["a"]));
    assert !Leq("b", "a");
    assert Sort(["b", "a"]) == ["a", "b"];
    assert a + " " + b == "a b";
  }
}
