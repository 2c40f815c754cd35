/** ASCII text helpers shared by the models: trimming, letter case, prefixes
    and the byte order of strings. */
module Text {

  predicate IsSpace(c: char) {
    c == ' ' || c == '\t' || c == '\n' || c == '\r' || c == '\U{0B}' || c == '\U{0C}'
  }

  predicate AllSpace(s: string) {
    forall i :: 0 <= i < |s| ==> IsSpace(s[i])
  }

  /** No blank at either end. */
  predicate Trimmed(s: string) {
    s == "" || (!IsSpace(s[0]) && !IsSpace(s[|s| - 1]))
  }

  function TrimLeft(s: string): string {
    if s != "" && IsSpace(s[0]) then TrimLeft(s[1..]) else s
  }

  function TrimRight(s: string): string {
    if s != "" && IsSpace(s[|s| - 1]) then TrimRight(s[..|s| - 1]) else s
  }

  /** Trimming at the front cuts blanks there, and all of them. */
  lemma {:induction false} TrimLeftCuts(s: string)
    ensures var r := TrimLeft(s);
            |r| <= |s| && r == s[|s| - |r|..] && AllSpace(s[..|s| - |r|]) && (r == "" || !IsSpace(r[0]))
  {
    if s != "" && IsSpace(s[0]) {
      TrimLeftCuts(s[1..]);
      var t := TrimLeft(s[1..]);
      assert s[..|s| - |t|] == [s[0]] + s[1..][..|s[1..]| - |t|];
    }
  }

  lemma {:induction false} TrimRightCuts(s: string)
    ensures var r := TrimRight(s);
            |r| <= |s| && r == s[..|r|] && AllSpace(s[|r|..]) && (r == "" || !IsSpace(r[|r| - 1]))
  {
    if s != "" && IsSpace(s[|s| - 1]) {
      TrimRightCuts(s[..|s| - 1]);
      var t := TrimRight(s[..|s| - 1]);
      assert s[|t|..] == s[..|s| - 1][|t|..] + [s[|s| - 1]];
    }
  }

  function Trim(s: string): (r: string)
    ensures Trimmed(r)
    ensures Trimmed(s) ==> r == s
  {
    TrimLeftCuts(s);
    TrimRightCuts(TrimLeft(s));
    TrimRight(TrimLeft(s))
  }

  lemma TrimTrimmed(s: string)
    requires Trimmed(s)
    ensures Trim(s) == s
  {
  }

  /** What trimming means: only blanks are cut, and only from the two ends. */
  lemma TrimSplits(s: string) returns (before: string, after: string)
    ensures s == before + Trim(s) + after
    ensures AllSpace(before) && AllSpace(after)
  {
    var l := TrimLeft(s);
    var r := TrimRight(l);
    TrimLeftCuts(s);
    TrimRightCuts(l);
    before, after := s[..|s| - |l|], l[|r|..];
    Recompose(s, l, r);
  }

  lemma Recompose(s: string, l: string, r: string)
    requires |r| <= |l| <= |s| && l == s[|s| - |l|..] && r == l[..|r|]
    ensures s == s[..|s| - |l|] + r + l[|r|..]
  {
    assert l == r + l[|r|..];
  }

  lemma TrimKeepsChars(s: string, c: char)
    requires c in Trim(s)
    ensures c in s
  {
    var before, after := TrimSplits(s);
  }

  lemma TrimBlank(s: string)
    ensures Trim(s) == "" <==> AllSpace(s)
  {
    var before, after := TrimSplits(s);
    if Trim(s) == "" {
      assert s == before + after;
    } else {
      assert !IsSpace(s[|before|]);
    }
  }

  /** Blanks around an already trimmed text disappear. */
  lemma TrimAround(before: string, s: string, after: string)
    requires AllSpace(before) && AllSpace(after) && Trimmed(s)
    ensures Trim(before + s + after) == s
  {
    if s == "" {
      TrimBlank(before + s + after);
    } else {
      TrimLeftPast(before, s + after);
      assert before + s + after == before + (s + after);
      TrimLeftStops(s, after);
      TrimRightPast(s, after);
      TrimTrimmed(s);
    }
  }

  lemma TrimLeftStops(s: string, after: string)
    requires s != "" && !IsSpace(s[0])
    ensures TrimLeft(s + after) == s + after && TrimLeft(s) == s
  {
    assert (s + after)[0] == s[0];
  }

  lemma {:induction false} TrimLeftPast(before: string, s: string)
    requires AllSpace(before)
    ensures TrimLeft(before + s) == TrimLeft(s)
  {
    if before == "" {
      assert before + s == s;
    } else {
      assert (before + s)[1..] == before[1..] + s;
      TrimLeftPast(before[1..], s);
    }
  }

  lemma {:induction false} TrimRightPast(s: string, after: string)
    requires AllSpace(after)
    ensures TrimRight(s + after) == TrimRight(s)
  {
    if after == "" {
      assert s + after == s;
    } else {
      var n := |after| - 1;
      assert (s + after)[..|s + after| - 1] == s + after[..n];
      TrimRightPast(s, after[..n]);
    }
  }

  // ---- letter case -------------------------------------------------------

  function LowerChar(c: char): char {
    if 'A' <= c <= 'Z' then (c as int + 32) as char else c
  }

  function UpperChar(c: char): char {
    if 'a' <= c <= 'z' then (c as int - 32) as char else c
  }

  function ToLower(s: string): (r: string)
    ensures |r| == |s| && forall i :: 0 <= i < |s| ==> r[i] == LowerChar(s[i])
  {
    seq(|s|, i requires 0 <= i < |s| => LowerChar(s[i]))
  }

  function ToUpper(s: string): (r: string)
    ensures |r| == |s| && forall i :: 0 <= i < |s| ==> r[i] == UpperChar(s[i])
  {
    seq(|s|, i requires 0 <= i < |s| => UpperChar(s[i]))
  }

  /** Service names are compared trimmed and in lower case. */
  function NormalizeName(s: string): (r: string)
    ensures Trimmed(r)
  {
    Trim(ToLower(s))
  }

  predicate NormalName(s: string) {
    NormalizeName(s) == s
  }

  lemma NormalizeNameIdempotent(s: string)
    ensures NormalName(NormalizeName(s))
  {
    var l := ToLower(s);
    var before, after := TrimSplits(l);
    LowerStays(s, before, Trim(l), after);
    assert ToLower(Trim(l)) == Trim(l);
  }

  lemma LowerStays(s: string, before: string, r: string, after: string)
    requires ToLower(s) == before + r + after
    ensures forall i :: 0 <= i < |r| ==> LowerChar(r[i]) == r[i]
  {
    forall i | 0 <= i < |r| ensures LowerChar(r[i]) == r[i] {
      assert r[i] == (before + r + after)[|before| + i];
      assert r[i] == LowerChar(s[|before| + i]);
    }
  }

  // ---- prefixes and order ------------------------------------------------

  predicate HasPrefix(s: string, p: string) {
    p <= s
  }

  /** Go's `<` on strings: the first difference decides, a proper prefix is smaller. */
  predicate Less(a: string, b: string) {
    if b == "" then false
    else if a == "" then true
    else if a[0] != b[0] then a[0] < b[0]
    else Less(a[1..], b[1..])
  }

  /** The texts agree before position `k`, where the first ends or has the smaller character. */
  predicate SmallerAt(a: string, b: string, k: nat) {
    k <= |a| && k < |b| && a[..k] == b[..k] && (k == |a| || a[k] < b[k])
  }

  lemma {:induction false} LessIsByteOrder(a: string, b: string)
    ensures Less(a, b) <==> exists k: nat :: SmallerAt(a, b, k)
  {
    if a != "" && b != "" && a[0] == b[0] {
      LessIsByteOrder(a[1..], b[1..]);
      if k: nat :| SmallerAt(a[1..], b[1..], k) {
        SmallerBehind(a, b, k, k + 1);
      }
      if k: nat :| SmallerAt(a, b, k) {
        SmallerBehind(a, b, k - 1, k);
      }
    } else if Less(a, b) {
      assert SmallerAt(a, b, 0);
    }
  }

  lemma SmallerBehind(a: string, b: string, k: nat, n: nat)
    requires a != "" && b != "" && a[0] == b[0] && n == k + 1
    ensures SmallerAt(a, b, n) <==> SmallerAt(a[1..], b[1..], k)
  {
    if n <= |a| && n <= |b| {
      assert a[..n] == [a[0]] + a[1..][..k] && b[..n] == [b[0]] + b[1..][..k];
    }
  }

  lemma {:induction false} LessTotal(a: string, b: string)
    ensures Less(a, b) || a == b || Less(b, a)
  {
    if a != "" && b != "" && a[0] == b[0] {
      LessTotal(a[1..], b[1..]);
      if a[1..] == b[1..] {
        assert a == [a[0]] + a[1..] && b == [b[0]] + b[1..];
      }
    }
  }

  lemma {:induction false} LessIrreflexive(a: string)
    ensures !Less(a, a)
  {
    if a != "" {
      LessIrreflexive(a[1..]);
    }
  }

  lemma {:induction false} LessTransitive(a: string, b: string, c: string)
    requires Less(a, b) && Less(b, c)
    ensures Less(a, c)
  {
    if a != "" && a[0] == b[0] == c[0] {
      LessTransitive(a[1..], b[1..], c[1..]);
    }
  }

  /** Among prefixes of one text, smaller means shorter. */
  lemma {:induction false} LessOnPrefixes(path: string, a: string, b: string)
    requires HasPrefix(path, a) && HasPrefix(path, b)
    ensures Less(a, b) <==> |a| < |b|
  {
    if a != "" && b != "" {
      assert a[0] == path[0] == b[0];
      LessOnPrefixes(path[1..], a[1..], b[1..]);
    }
  }

  function InsertText(s: string, texts: seq<string>): (r: seq<string>)
    ensures multiset(r) == multiset(texts) + multiset{s}
  {
    if texts == [] || Less(s, texts[0]) then [s] + texts
    else
      assert texts == [texts[0]] + texts[1..];
      [texts[0]] + InsertText(s, texts[1..])
  }

  function SortTexts(texts: seq<string>): (r: seq<string>)
    ensures multiset(r) == multiset(texts)
  {
    if texts == [] then []
    else
      assert texts == [texts[0]] + texts[1..];
      InsertText(texts[0], SortTexts(texts[1..]))
  }

  predicate Ascending(texts: seq<string>) {
    forall i, j :: 0 <= i < j < |texts| ==> !Less(texts[j], texts[i])
  }

  lemma NotLess(a: string, b: string, c: string)
    ensures Less(a, b) ==> !Less(b, a)
    ensures !Less(b, a) && !Less(c, b) ==> !Less(c, a)
  {
    hide Less;
    LessTotal(a, b);
    LessTotal(b, c);
    LessIrreflexive(a);
    if Less(a, b) && Less(b, a) { LessTransitive(a, b, a); }
    if Less(c, a) && Less(a, b) { LessTransitive(c, a, b); }
  }

  lemma {:induction false} InsertTextAscends(s: string, texts: seq<string>)
    requires Ascending(texts)
    ensures Ascending(InsertText(s, texts))
  {
    hide Less;
    if texts == [] {
    } else if Less(s, texts[0]) {
      forall j | 0 <= j < |texts| ensures !Less(texts[j], s) {
        NotLess(s, texts[0], texts[j]);
      }
    } else {
      var tail := InsertText(s, texts[1..]);
      InsertTextAscends(s, texts[1..]);
      forall j | 0 <= j < |tail| ensures !Less(tail[j], texts[0]) {
        assert tail[j] in multiset(tail);
        assert tail[j] == s || tail[j] in texts[1..];
      }
    }
  }

  /** Sorting only rearranges, and leaves the texts in ascending order. */
  lemma {:induction false} SortTextsAscends(texts: seq<string>)
    ensures Ascending(SortTexts(texts))
  {
    if texts != [] {
      SortTextsAscends(texts[1..]);
      InsertTextAscends(texts[0], SortTexts(texts[1..]));
    }
  }

  // ---- positions ---------------------------------------------------------

  /** The first position of a character, or the length. */
  function IndexOf(s: string, c: char): (k: nat)
    ensures k <= |s| && forall i :: 0 <= i < k ==> s[i] != c
    ensures k < |s| ==> s[k] == c
  {
    if s == "" || s[0] == c then 0
    else
      var rest := s[1..];
      assert forall i :: 1 <= i < |s| ==> s[i] == rest[i - 1];
      1 + IndexOf(rest, c)
  }

  lemma Cut(a: string, c: char, b: string)
    ensures var s := a + [c] + b;
            |s| == |a| + 1 + |b| && s[|a|] == c && s[..|a|] == a && s[|a| + 1..] == b
  {
  }

  lemma FirstAt(s: string, c: char, k: nat)
    requires k < |s| && s[k] == c && forall i :: 0 <= i < k ==> s[i] != c
    ensures IndexOf(s, c) == k
  {
    var i := IndexOf(s, c);
  }
}
