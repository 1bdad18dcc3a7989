/**
 * The flag search matcher of the editor (main.js, `orderedMatch`) and the
 * list filter built on it.
 *
 * A query matches a flag file name when, after normalisation, every
 * character of the query occurs in the name in the same relative order,
 * not necessarily contiguously.  The source decides this with a greedy
 * `indexOf` loop; here that loop is a method proved equal to the
 * declarative `IsSubsequence`.
 */
module Search {

  // ---------------------------------------------------------------------
  // Characters and normalisation
  // ---------------------------------------------------------------------

  /** The character class `\s` of JavaScript regular expressions
      (white space and line terminators). */
  predicate IsWhitespace(c: char)
  {
    var k := c as int;
    k == 0x09 || k == 0x0A || k == 0x0B || k == 0x0C || k == 0x0D || k == 0x20 ||
    k == 0xA0 || k == 0x1680 || (0x2000 <= k <= 0x200A) || k == 0x2028 ||
    k == 0x2029 || k == 0x202F || k == 0x205F || k == 0x3000 || k == 0xFEFF
  }

  predicate IsAsciiUpper(c: char)
  {
    'A' <= c <= 'Z'
  }

  /** `toLowerCase` on one character, over ASCII: a capital becomes its
      small letter, 32 code points further on. */
  function LowerChar(c: char): (r: char)
    ensures !IsAsciiUpper(r)
    ensures IsAsciiUpper(c) ==> r as int == c as int + 32
    ensures IsWhitespace(r) <==> IsWhitespace(c)
    ensures !IsAsciiUpper(c) ==> r == c
  {
    if IsAsciiUpper(c) then (c as int + 32) as char else c
  }

  /** `toLowerCase` on a string, over ASCII: the same length, character by
      character. */
  function Lower(s: string): (r: string)
    ensures |r| == |s|
    ensures forall i :: 0 <= i < |s| ==> r[i] == LowerChar(s[i])
  {
    if s == [] then [] else [LowerChar(s[0])] + Lower(s[1..])
  }

  /** `s.replace(/\s+/g, "")`: every run of white space removed. */
  function RemoveWhitespace(s: string): (r: string)
    ensures forall i :: 0 <= i < |r| ==> !IsWhitespace(r[i])
    ensures IsSubsequence(r, s)
  {
    if s == [] then []
    else if IsWhitespace(s[0]) then RemoveWhitespace(s[1..])
    else [s[0]] + RemoveWhitespace(s[1..])
  }

  /** Removing white space keeps every other character, as often as it
      occurs; with the subsequence clause above this fixes the result. */
  lemma {:induction false} RemoveWhitespaceCounts(s: string)
    ensures KeepsNonWhitespace(RemoveWhitespace(s), s)
  {
    if s != [] {
      RemoveWhitespaceCounts(s[1..]);
      assert s == [s[0]] + s[1..];
    }
  }

  /** `r` holds every character of `s` that is not white space, as often
      as `s` does. */
  ghost predicate KeepsNonWhitespace(r: string, s: string)
  {
    forall c :: !IsWhitespace(c) ==> multiset(r)[c] == multiset(s)[c]
  }

  predicate EndsWith(s: string, suffix: string)
  {
    |suffix| <= |s| && s[|s| - |suffix|..] == suffix
  }

  /** The extensions the name pattern `\.(png|jpg|jpeg|webp)$` removes. */
  const ImageExtensions: seq<string> := [".png", ".jpg", ".jpeg", ".webp"]

  /** `n.replace(/\.(png|jpg|jpeg|webp)$/i, "")` on an already lower-cased
      name: at most one trailing extension is dropped, and only at the very
      end of the name. */
  function StripImageExtension(s: string): (r: string)
    ensures r <= s
    ensures r == s <==> (forall e :: e in ImageExtensions ==> !EndsWith(s, e))
    ensures r != s ==> exists e :: e in ImageExtensions && s == r + e
  {
    if EndsWith(s, ".png") then
      assert s == s[..|s| - 4] + ".png"; s[..|s| - 4]
    else if EndsWith(s, ".jpg") then
      assert s == s[..|s| - 4] + ".jpg"; s[..|s| - 4]
    else if EndsWith(s, ".jpeg") then
      assert s == s[..|s| - 5] + ".jpeg"; s[..|s| - 5]
    else if EndsWith(s, ".webp") then
      assert s == s[..|s| - 5] + ".webp"; s[..|s| - 5]
    else s
  }

  /** The query as `orderedMatch` normalises it: lower-cased, white space
      removed. */
  function NormalizeQuery(search: string): (r: string)
    ensures forall i :: 0 <= i < |r| ==> !IsWhitespace(r[i]) && !IsAsciiUpper(r[i])
  {
    var lower := Lower(search);
    assert forall x :: x in lower ==> !IsAsciiUpper(x);
    SubsequenceMembers(RemoveWhitespace(lower), lower);
    RemoveWhitespace(lower)
  }

  /** The candidate name as `orderedMatch` normalises it: lower-cased, one
      trailing image extension removed. */
  function NormalizeName(name: string): (r: string)
    ensures |name| - |r| in {0, 4, 5}
    ensures forall i :: 0 <= i < |r| ==> r[i] == LowerChar(name[i])
  {
    StripImageExtension(Lower(name))
  }

  // ---------------------------------------------------------------------
  // The declarative specification
  // ---------------------------------------------------------------------

  /** `q` can be obtained from `n` by deleting elements: each element of `q`
      is matched by some element of `n`, and later elements by later ones. */
  predicate IsSubsequence<T(==)>(q: seq<T>, n: seq<T>)
    decreases |n|
  {
    q == [] ||
    (n != [] && ((q[0] == n[0] && IsSubsequence(q[1..], n[1..])) || IsSubsequence(q, n[1..])))
  }

  /** What `orderedMatch(search, name)` decides. */
  predicate Matches(search: string, name: string)
  {
    IsSubsequence(NormalizeQuery(search), NormalizeName(name))
  }

  /** The same notion stated with positions: `idx[k]` is where the `k`-th
      query element sits in `n`, and the positions strictly increase. */
  ghost predicate IsEmbedding<T>(idx: seq<nat>, q: seq<T>, n: seq<T>)
  {
    && |idx| == |q|
    && (forall k :: 0 <= k < |idx| ==> idx[k] < |n| && n[idx[k]] == q[k])
    && (forall k, l :: 0 <= k < l < |idx| ==> idx[k] < idx[l])
  }

  /** A subsequence has increasing positions witnessing it. */
  lemma {:induction false} EmbeddingOf<T>(q: seq<T>, n: seq<T>) returns (idx: seq<nat>)
    requires IsSubsequence(q, n)
    ensures IsEmbedding(idx, q, n)
    decreases |n|
  {
    if q == [] {
      idx := [];
    } else if q[0] == n[0] && IsSubsequence(q[1..], n[1..]) {
      var rest := EmbeddingOf(q[1..], n[1..]);
      idx := [0] + seq(|rest|, i requires 0 <= i < |rest| => rest[i] + 1);
    } else {
      var rest := EmbeddingOf(q, n[1..]);
      idx := seq(|rest|, i requires 0 <= i < |rest| => rest[i] + 1);
    }
  }

  /** Increasing positions witnessing `q` in `n` make `q` a subsequence. */
  lemma {:induction false} EmbeddingGivesSubsequence<T>(idx: seq<nat>, q: seq<T>, n: seq<T>)
    requires IsEmbedding(idx, q, n)
    ensures IsSubsequence(q, n)
    decreases |n|
  {
    if q != [] {
      if idx[0] == 0 {
        var rest := seq(|idx| - 1, i requires 0 <= i < |idx| - 1 => idx[i + 1] - 1);
        assert forall k :: 0 <= k < |rest| ==> n[1..][rest[k]] == q[1..][k] by {
          forall k | 0 <= k < |rest| ensures n[1..][rest[k]] == q[1..][k] {
            assert idx[0] < idx[k + 1];
          }
        }
        assert IsEmbedding(rest, q[1..], n[1..]);
        EmbeddingGivesSubsequence(rest, q[1..], n[1..]);
      } else {
        var rest := seq(|idx|, i requires 0 <= i < |idx| => idx[i] - 1);
        assert forall k :: 0 <= k < |rest| ==> n[1..][rest[k]] == q[k] by {
          forall k | 0 <= k < |rest| ensures n[1..][rest[k]] == q[k] {
            assert k == 0 || idx[0] < idx[k];
          }
        }
        assert IsEmbedding(rest, q, n[1..]);
        EmbeddingGivesSubsequence(rest, q, n[1..]);
      }
    }
  }

  /** `orderedMatch` decides whether the normalised query's characters can
      be found at increasing positions of the normalised name. */
  lemma MatchesIffPositions(search: string, name: string)
    ensures Matches(search, name) <==>
            exists idx :: IsEmbedding(idx, NormalizeQuery(search), NormalizeName(name))
  {
    var q, n := NormalizeQuery(search), NormalizeName(name);
    if Matches(search, name) {
      var idx := EmbeddingOf(q, n);
    }
    if idx :| IsEmbedding(idx, q, n) {
      EmbeddingGivesSubsequence(idx, q, n);
    }
  }

  // ---------------------------------------------------------------------
  // The greedy matcher
  // ---------------------------------------------------------------------

  /** `n.indexOf(x, from)`, on a string or on an array: the first position
      at or after `from` holding `x`, or -1 when there is none. */
  function IndexOf<T(==)>(n: seq<T>, x: T, from: nat): (r: int)
    ensures r == -1 || (from <= r < |n| && n[r] == x)
    ensures forall j :: from <= j < |n| && (r == -1 || j < r) ==> n[j] != x
    decreases |n| - from
  {
    if from >= |n| then -1
    else if n[from] == x then from
    else IndexOf(n, x, from + 1)
  }

  /** `orderedMatch`: for each query character, jump to its next occurrence
      in the name after the previous match; fail when there is none. */
  method OrderedMatch(search: string, name: string) returns (r: bool)
    ensures r == Matches(search, name)
  {
    var s := NormalizeQuery(search);
    var n := NormalizeName(name);
    var i: int := 0;
    var k := 0;
    while k < |s|
      invariant 0 <= k <= |s|
      invariant 0 <= i <= |n|
      invariant IsSubsequence(s, n) == IsSubsequence(s[k..], n[i..])
    {
      var j := IndexOf(n, s[k], i);
      GreedyStep(s, n, k, i, j);
      if j == -1 {
        return false;
      }
      i := j + 1;
      k := k + 1;
    }
    return true;
  }

  /** One round of the loop: when the next query element does not occur
      from `i` on there is no match; when it first occurs at `j`, matching
      it there decides the rest. */
  lemma GreedyStep<T>(s: seq<T>, n: seq<T>, k: nat, i: nat, j: int)
    requires k < |s| && i <= |n|
    requires j == IndexOf(n, s[k], i)
    ensures j == -1 ==> !IsSubsequence(s[k..], n[i..])
    ensures j != -1 ==> IsSubsequence(s[k..], n[i..]) == IsSubsequence(s[k + 1..], n[j + 1..])
  {
    SkipNonMatching(s[k..], n[i..], if j == -1 then |n| - i else j - i);
    if j == -1 {
      assert n[i..][|n| - i..] == [];
    } else {
      assert n[i..][j - i..] == n[j..];
      MatchAtHead(s[k..], n[j..]);
      assert s[k..][1..] == s[k + 1..];
      assert n[j..][1..] == n[j + 1..];
    }
  }

  /** Elements of `m` that differ from the first query element can be
      skipped without changing the answer. */
  lemma {:induction false} SkipNonMatching<T>(q: seq<T>, m: seq<T>, j: nat)
    requires q != [] && j <= |m|
    requires forall t :: 0 <= t < j ==> m[t] != q[0]
    ensures IsSubsequence(q, m) == IsSubsequence(q, m[j..])
    decreases j
  {
    if j > 0 {
      SkipNonMatching(q, m[1..], j - 1);
      assert m[1..][j - 1..] == m[j..];
    }
  }

  /** Dropping the first query element keeps a subsequence a subsequence. */
  lemma {:induction false} DropHead<T>(q: seq<T>, m: seq<T>)
    requires q != [] && IsSubsequence(q, m)
    ensures IsSubsequence(q[1..], m)
    decreases |m|
  {
    if q[0] == m[0] && IsSubsequence(q[1..], m[1..]) {
    } else {
      DropHead(q, m[1..]);
    }
  }

  /** When the name starts with the first query element, matching them
      together loses nothing: this is why the greedy choice is safe. */
  lemma {:induction false} MatchAtHead<T>(q: seq<T>, m: seq<T>)
    requires q != [] && m != [] && q[0] == m[0]
    ensures IsSubsequence(q, m) == IsSubsequence(q[1..], m[1..])
  {
    if IsSubsequence(q, m[1..]) {
      DropHead(q, m[1..]);
    }
  }

  // ---------------------------------------------------------------------
  // The list filter
  // ---------------------------------------------------------------------

  /** `list.filter(name => orderedMatch(search, name))`, as used for the
      flag thumbnails and for the search popup. */
  function Filter(search: string, list: seq<string>): (r: seq<string>)
    ensures |r| <= |list|
    ensures forall i :: 0 <= i < |r| ==> Matches(search, r[i])
  {
    if list == [] then []
    else if Matches(search, list[0]) then [list[0]] + Filter(search, list[1..])
    else Filter(search, list[1..])
  }

  /** The filter keeps exactly the names that match, in their original
      order. */
  lemma {:induction false} FilterKeepsMatches(search: string, list: seq<string>)
    ensures IsSubsequence(Filter(search, list), list) && |Filter(search, list)| <= |list|
    ensures forall x :: x in Filter(search, list) ==> x in list
    ensures forall x :: x in Filter(search, list) ==> Matches(search, x)
    ensures forall x :: x in list && Matches(search, x) ==> x in Filter(search, list)
    ensures forall x :: multiset(Filter(search, list))[x] == if Matches(search, x) then multiset(list)[x] else 0
  {
    if list != [] {
      assert list == [list[0]] + list[1..];
      var r := Filter(search, list);
      var rest := Filter(search, list[1..]);
      FilterKeepsMatches(search, list[1..]);
      if Matches(search, list[0]) {
        assert r[1..] == rest;
      } else {
        assert IsSubsequence(r, list[1..]);
        SubsequenceOfTail(r, list);
      }
      assert forall x :: x in list ==> x == list[0] || x in list[1..];
    }
  }

  /** A position in the filtered list is a position in the whole list, and
      the name shown there is one of the list's names. */
  lemma FilterPosition(search: string, list: seq<string>, i: nat)
    requires i < |Filter(search, list)|
    ensures i < |list| && Filter(search, list)[i] in list
  {
    FilterKeepsMatches(search, list);
  }

  /** A subsequence of the tail is a subsequence of the whole. */
  lemma SubsequenceOfTail<T>(q: seq<T>, n: seq<T>)
    requires n != [] && IsSubsequence(q, n[1..])
    ensures IsSubsequence(q, n)
  {
  }

  /** A query that is empty once normalised matches every name. */
  lemma EmptyQueryMatches(search: string, name: string)
    requires NormalizeQuery(search) == []
    ensures Matches(search, name)
  {
  }

  /** A query that is empty once normalised keeps the whole list. */
  lemma {:induction false} FilterEmptyQueryKeepsAll(search: string, list: seq<string>)
    requires NormalizeQuery(search) == []
    ensures Filter(search, list) == list
  {
    if list != [] {
      FilterEmptyQueryKeepsAll(search, list[1..]);
    }
  }

  /** Lower-casing leaves a string without capitals as it is. */
  lemma {:induction false} LowerKeepsPlain(s: string)
    requires forall i :: 0 <= i < |s| ==> !IsAsciiUpper(s[i])
    ensures Lower(s) == s
  {
    if s != [] {
      LowerKeepsPlain(s[1..]);
    }
  }

  /** Only the extension goes: the stem of a `.png` name is kept whole. */
  lemma StripPng(stem: string)
    ensures StripImageExtension(stem + ".png") == stem
  {
    var s := stem + ".png";
    assert s[|s| - 4..] == ".png";
    assert s[..|s| - 4] == stem;
  }

  /** A `.png` name whose only capital is its first letter normalises to
      its stem with that letter lower-cased. */
  lemma CapitalisedPng(c: char, tail: string)
    requires forall i :: 0 <= i < |tail| ==> !IsAsciiUpper(tail[i])
    ensures NormalizeName([c] + tail + ".png") == [LowerChar(c)] + tail
  {
    var rest := tail + ".png";
    assert [c] + tail + ".png" == [c] + rest;
    assert forall i :: 0 <= i < |rest| ==> !IsAsciiUpper(rest[i]) by {
      forall i | 0 <= i < |rest| ensures !IsAsciiUpper(rest[i]) {
        if i >= |tail| { assert rest[i] == ".png"[i - |tail|]; }
      }
    }
    LowerKeepsPlain(rest);
    assert ([c] + rest)[1..] == rest;
    assert Lower([c] + rest) == [LowerChar(c)] + tail + ".png";
    StripPng([LowerChar(c)] + tail);
  }

  // The examples below name their file through a parameter, so that the
  // verifier reasons about the name instead of evaluating every function
  // on the literal.

  lemma BrazilNormalised(name: string)
    requires name == "Brazil.png"
    ensures NormalizeName(name) == "brazil"
  {
    CapitalisedPng('B', "razil");
    assert name == ['B'] + "razil" + ".png";
    assert [LowerChar('B')] + "razil" == "brazil";
  }

  lemma {:induction false} RemoveWhitespaceKeepsPlain(s: string)
    requires forall i :: 0 <= i < |s| ==> !IsWhitespace(s[i])
    ensures RemoveWhitespace(s) == s
  {
    if s != [] {
      RemoveWhitespaceKeepsPlain(s[1..]);
    }
  }

  lemma ArubaNormalised(name: string)
    requires name == "Aruba.png"
    ensures NormalizeName(name) == "aruba"
  {
    CapitalisedPng('A', "ruba");
    assert name == ['A'] + "ruba" + ".png";
    assert [LowerChar('A')] + "ruba" == "aruba";
  }

  /** Every element of a subsequence occurs in the longer sequence. */
  lemma {:induction false} SubsequenceMembers<T>(q: seq<T>, n: seq<T>)
    requires IsSubsequence(q, n)
    ensures forall x :: x in q ==> x in n
    decreases |n|
  {
    if q != [] {
      if q[0] == n[0] && IsSubsequence(q[1..], n[1..]) {
        SubsequenceMembers(q[1..], n[1..]);
        assert forall x :: x in q ==> x == q[0] || x in q[1..];
      } else {
        SubsequenceMembers(q, n[1..]);
      }
    }
  }

  /** "bz" does not find "Aruba.png": it has a 'b' but no 'z'. */
  lemma ArubaMissesBz(name: string)
    requires name == "Aruba.png"
    ensures !Matches("bz", name)
  {
    ArubaNormalised(name);
    assert Lower("bz") == "bz";
    RemoveWhitespaceKeepsPlain("bz");
    if IsSubsequence("bz", "aruba") {
      SubsequenceMembers("bz", "aruba");
    }
  }

  /** Filtering keeps the names that match, in their order. */
  lemma FilterPair(search: string, a: string, b: string)
    requires !Matches(search, a) && Matches(search, b)
    ensures Filter(search, [a, b]) == [b]
  {
    assert [a, b][1..] == [b];
    assert [b][1..] == [];
    assert Filter(search, [b]) == [b] + Filter(search, []);
  }

  /** Searching "bz" among Aruba and Brazil keeps only Brazil, which
      therefore sits at a different position in the filtered list than in
      the list itself. */
  lemma FlagSearchExample(aruba: string, brazil: string)
    requires aruba == "Aruba.png" && brazil == "Brazil.png"
    ensures Filter("bz", [aruba, brazil]) == [brazil]
  {
    BrazilMatchesBz(brazil);
    ArubaMissesBz(aruba);
    FilterPair("bz", aruba, brazil);
  }

  /** A query without capitals or white space is its own normal form. */
  lemma PlainQuery(q: string)
    requires forall i :: 0 <= i < |q| ==> !IsAsciiUpper(q[i]) && !IsWhitespace(q[i])
    ensures NormalizeQuery(q) == q
  {
    LowerKeepsPlain(q);
    RemoveWhitespaceKeepsPlain(q);
  }

  /** "bz" finds "Brazil.png": 'b' at 0, then 'z' at 3 of "brazil". */
  lemma BrazilMatchesBz(name: string)
    requires name == "Brazil.png"
    ensures Matches("bz", name)
  {
    BrazilNormalised(name);
    PlainQuery("bz");
    BzInBrazil("brazil");
  }

  lemma BzInBrazil(n: string)
    requires n == "brazil"
    ensures IsSubsequence("bz", n)
  {
    SkipNonMatching("z", n[1..], 2);
    assert n[1..][2..] == n[3..];
    assert IsSubsequence("z", n[3..]);
  }

  /** "zb" does not find "Brazil.png": the letters are there, but no 'b'
      follows the first 'z'. */
  lemma BrazilMissesZb(name: string)
    requires name == "Brazil.png"
    ensures !Matches("zb", name)
  {
    BrazilNormalised(name);
    PlainQuery("zb");
    ZbNotInBrazil("brazil");
  }

  lemma ZbNotInBrazil(n: string)
    requires n == "brazil"
    ensures !IsSubsequence("zb", n)
  {
    SkipNonMatching("zb", n, 3);
    MatchAtHead("zb", n[3..]);
    assert n[3..][1..] == "il";
    SkipNonMatching("b", "il", 2);
  }

  // ---------------------------------------------------------------------
  // The callers' own normalisation
  // ---------------------------------------------------------------------

  /** `String.prototype.trim`: leading and trailing `\s` removed.  The
      result neither starts nor ends with white space, and every other
      character of `s` stays, in order. */
  function Trim(s: string): (r: string)
    ensures |r| <= |s|
    ensures r == [] || (!IsWhitespace(r[0]) && !IsWhitespace(r[|r| - 1]))
    ensures RemoveWhitespace(r) == RemoveWhitespace(s)
  {
    RemoveWhitespaceTrimStart(s);
    RemoveWhitespaceTrimEnd(TrimStart(s));
    TrimEnd(TrimStart(s))
  }

  /** Leading white space removed: a suffix of `s` that does not start
      with white space. */
  function TrimStart(s: string): (r: string)
    ensures |r| <= |s| && r == s[|s| - |r|..]
    ensures r == [] || !IsWhitespace(r[0])
  {
    if s != [] && IsWhitespace(s[0]) then TrimStart(s[1..]) else s
  }

  /** Trailing white space removed: a prefix of `s` that does not end with
      white space. */
  function TrimEnd(s: string): (r: string)
    ensures r <= s
    ensures r == [] || !IsWhitespace(r[|r| - 1])
  {
    if s != [] && IsWhitespace(s[|s| - 1]) then TrimEnd(s[..|s| - 1]) else s
  }

  lemma {:induction false} RemoveWhitespaceAppend(a: string, b: string)
    ensures RemoveWhitespace(a + b) == RemoveWhitespace(a) + RemoveWhitespace(b)
  {
    if a != [] {
      assert (a + b)[1..] == a[1..] + b;
      RemoveWhitespaceAppend(a[1..], b);
    } else {
      assert a + b == b;
    }
  }

  lemma {:induction false} RemoveWhitespaceTrimStart(s: string)
    ensures RemoveWhitespace(TrimStart(s)) == RemoveWhitespace(s)
  {
    if s != [] && IsWhitespace(s[0]) {
      RemoveWhitespaceTrimStart(s[1..]);
    }
  }

  lemma {:induction false} RemoveWhitespaceTrimEnd(s: string)
    ensures RemoveWhitespace(TrimEnd(s)) == RemoveWhitespace(s)
    decreases |s|
  {
    if s != [] && IsWhitespace(s[|s| - 1]) {
      var init, last := s[..|s| - 1], [s[|s| - 1]];
      RemoveWhitespaceTrimEnd(init);
      assert s == init + last;
      RemoveWhitespaceAppend(init, last);
      assert last[1..] == [];
      assert RemoveWhitespace(last) == RemoveWhitespace(last[1..]) == [];
    }
  }

  lemma {:induction false} LowerIdempotent(s: string)
    ensures Lower(Lower(s)) == Lower(s)
  {
    assert forall i :: 0 <= i < |s| ==> Lower(Lower(s))[i] == Lower(s)[i];
  }

  lemma {:induction false} LowerRemoveWhitespaceCommute(s: string)
    ensures RemoveWhitespace(Lower(s)) == Lower(RemoveWhitespace(s))
  {
    if s != [] {
      assert Lower(s)[1..] == Lower(s[1..]);
      LowerRemoveWhitespaceCommute(s[1..]);
      if !IsWhitespace(s[0]) {
        assert Lower([s[0]] + RemoveWhitespace(s[1..]))
            == [LowerChar(s[0])] + Lower(RemoveWhitespace(s[1..]));
      }
    }
  }

  /** Filtering with the search text as the callers pass it is filtering
      with the raw search text. */
  lemma {:induction false} FilterCallerNormalisation(value: string, list: seq<string>)
    ensures Filter(Lower(Trim(value)), list) == Filter(value, list)
  {
    if list != [] {
      CallerNormalisationIsRedundant(value, list[0]);
      FilterCallerNormalisation(value, list[1..]);
    }
  }

  /** The thumbnail grid and the popup pass `value.trim().toLowerCase()` to
      `orderedMatch`; that changes nothing, because `orderedMatch`
      lower-cases again and drops all white space anyway. */
  lemma CallerNormalisationIsRedundant(value: string, name: string)
    ensures Matches(Lower(Trim(value)), name) == Matches(value, name)
  {
    var t := Trim(value);
    calc {
      NormalizeQuery(Lower(t));
      RemoveWhitespace(Lower(Lower(t)));
      { LowerIdempotent(t); }
      RemoveWhitespace(Lower(t));
      { LowerRemoveWhitespaceCommute(t); }
      Lower(RemoveWhitespace(t));
      // by the contract of `Trim`
      Lower(RemoveWhitespace(value));
      { LowerRemoveWhitespaceCommute(value); }
      NormalizeQuery(value);
    }
  }
}
