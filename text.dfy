/**
 * The parts of Go's `strings` package the core relies on, on `seq<char>`.
 * Go strings are byte strings; comparing code points gives the same order
 * as comparing their UTF-8 encodings, so ordering results agree.
 */
module Text {

  /** strings.HasPrefix */
  predicate HasPrefix(s: string, prefix: string) {
    prefix <= s
  }

  /** strings.TrimPrefix */
  function TrimPrefix(s: string, prefix: string): (r: string)
    ensures HasPrefix(s, prefix) ==> s == prefix + r
    ensures !HasPrefix(s, prefix) ==> r == s
  {
    if HasPrefix(s, prefix) then s[|prefix|..] else s
  }

  /** strings.Split with a one-character separator: n separators give n + 1 parts. */
  function Split(s: string, sep: char): (parts: seq<string>)
    ensures |parts| >= 1
    ensures forall i :: 0 <= i < |parts| ==> sep !in parts[i]
  {
    if s == [] then [""]
    else
      var rest := Split(s[1..], sep);
      if s[0] == sep then [""] + rest
      else [[s[0]] + rest[0]] + rest[1..]
  }

  /** A string without the separator is one part. */
  lemma {:induction false} SplitNoSeparator(s: string, sep: char)
    requires sep !in s
    ensures Split(s, sep) == [s]
  {
    if s != [] {
      SplitNoSeparator(s[1..], sep);
      assert [s[0]] + s[1..] == s;
    }
  }

  /** The first part ends at the first separator. */
  lemma {:induction false} SplitFirstSeparator(s: string, sep: char, k: nat)
    requires k < |s| && s[k] == sep && sep !in s[..k]
    ensures Split(s, sep) == [s[..k]] + Split(s[k + 1..], sep)
  {
    if k > 0 {
      assert s[0] in s[..k];
      assert s[1..][..k - 1] == s[1..k];
      assert s[1..][k..] == s[k + 1..];
      assert sep !in s[1..][..k - 1] by {
        assert forall c :: c in s[1..k] ==> c in s[..k];
      }
      SplitFirstSeparator(s[1..], sep, k - 1);
      assert [s[0]] + s[1..k] == s[..k];
    }
  }

  /** The first position of c in s, -1 when there is none. */
  function IndexOf(s: string, c: char): (k: int)
    ensures -1 <= k < |s|
    ensures k >= 0 ==> s[k] == c && c !in s[..k]
    ensures k < 0 ==> c !in s
  {
    if s == [] then -1
    else if s[0] == c then 0
    else
      var k := IndexOf(s[1..], c);
      assert s == [s[0]] + s[1..];
      if k < 0 then -1
      else
        assert s[..k + 1] == [s[0]] + s[1..][..k];
        k + 1
  }

  /** Splitting around a separator splits each side. */
  lemma {:induction false} SplitAround(a: string, sep: char, b: string)
    ensures Split(a + [sep] + b, sep) == Split(a, sep) + Split(b, sep)
    decreases |a|
  {
    var s := a + [sep] + b;
    var k := IndexOf(a, sep);
    if k < 0 {
      assert s[..|a|] == a && s[|a| + 1..] == b;
      SplitFirstSeparator(s, sep, |a|);
      SplitNoSeparator(a, sep);
    } else {
      var tail := a[k + 1..];
      assert s[..k] == a[..k];
      assert s[k + 1..] == tail + [sep] + b;
      SplitFirstSeparator(s, sep, k);
      SplitFirstSeparator(a, sep, k);
      SplitAround(tail, sep, b);
      var p, q := Split(tail, sep), Split(b, sep);
      assert Split(s, sep) == [a[..k]] + (p + q);
      assert Split(a, sep) == [a[..k]] + p;
      assert [a[..k]] + (p + q) == ([a[..k]] + p) + q;
    }
  }

  /** The inverse of Split: the parts joined with the separator. */
  function JoinWith(parts: seq<string>, sep: char): string
  {
    if parts == [] then ""
    else if |parts| == 1 then parts[0]
    else parts[0] + [sep] + JoinWith(parts[1..], sep)
  }

  lemma {:induction false} JoinSplit(s: string, sep: char)
    ensures JoinWith(Split(s, sep), sep) == s
  {
    if s != [] {
      JoinSplit(s[1..], sep);
      var rest := Split(s[1..], sep);
      if s[0] != sep {
        if |rest| > 1 {
          assert [[s[0]] + rest[0]] + rest[1..] == [[s[0]] + rest[0]] + rest[1..];
          calc {
            JoinWith([[s[0]] + rest[0]] + rest[1..], sep);
            ([s[0]] + rest[0]) + [sep] + JoinWith(rest[1..], sep);
            [s[0]] + (rest[0] + [sep] + JoinWith(rest[1..], sep));
            [s[0]] + JoinWith(rest, sep);
          }
        }
      }
    }
  }

  /** strings.TrimLeft / TrimRight / Trim with a set of characters to cut. */
  function TrimLeft(s: string, cut: char -> bool): (r: string)
    ensures |r| <= |s| && r == s[|s| - |r|..]
    ensures r == [] || !cut(r[0])
    ensures forall i :: 0 <= i < |s| - |r| ==> cut(s[i])
  {
    if s != [] && cut(s[0]) then TrimLeft(s[1..], cut) else s
  }

  function TrimRight(s: string, cut: char -> bool): (r: string)
    ensures |r| <= |s| && r == s[..|r|]
    ensures r == [] || !cut(r[|r| - 1])
    ensures forall i :: |r| <= i < |s| ==> cut(s[i])
  {
    if s != [] && cut(s[|s| - 1]) then TrimRight(s[..|s| - 1], cut) else s
  }

  function Trim(s: string, cut: char -> bool): string {
    TrimRight(TrimLeft(s, cut), cut)
  }

  /** The characters unicode.IsSpace accepts. */
  predicate IsSpace(c: char) {
    c == ' ' || c == '\t' || c == '\n' || c == '\r' || c == '\U{B}' || c == '\U{C}'
    || c == '\U{85}' || c == '\U{A0}' || c == '\U{1680}'
    || ('\U{2000}' <= c <= '\U{200A}') || c == '\U{2028}' || c == '\U{2029}'
    || c == '\U{202F}' || c == '\U{205F}' || c == '\U{3000}'
  }

  /** strings.TrimSpace */
  function TrimSpace(s: string): string {
    Trim(s, IsSpace)
  }

  /** ASCII lower-casing of one character. */
  function LowerChar(c: char): (l: char)
    ensures 'A' <= c <= 'Z' ==> l as int == c as int + 32
    ensures !('A' <= c <= 'Z') ==> l == c
  {
    if 'A' <= c <= 'Z' then (c as int + 32) as char else c
  }

  /** strings.ToLower, restricted to ASCII letters. */
  function ToLower(s: string): (r: string)
    ensures |r| == |s|
    ensures forall i :: 0 <= i < |s| ==> r[i] == LowerChar(s[i])
  {
    if s == [] then [] else [LowerChar(s[0])] + ToLower(s[1..])
  }

  lemma {:induction false} TrimLeftAppend(s: string, c: char, cut: char -> bool)
    ensures TrimLeft(s + [c], cut) == if TrimLeft(s, cut) == [] then TrimLeft([c], cut) else TrimLeft(s, cut) + [c]
  {
    if s != [] {
      assert (s + [c])[1..] == s[1..] + [c];
      if cut(s[0]) {
        TrimLeftAppend(s[1..], c, cut);
      }
    } else {
      assert s + [c] == [c];
    }
  }

  /** A trailing character that is cut away anyway changes nothing. */
  lemma TrimDropsTrailingCut(s: string, cut: char -> bool, c: char)
    requires cut(c)
    ensures Trim(s + [c], cut) == Trim(s, cut)
  {
    TrimLeftAppend(s, c, cut);
    var l := TrimLeft(s, cut);
    if l != [] {
      assert (l + [c])[..|l|] == l;
    }
  }

  /** A leading character that is cut away anyway changes nothing. */
  lemma TrimDropsLeadingCut(c: char, s: string, cut: char -> bool)
    requires cut(c)
    ensures Trim([c] + s, cut) == Trim(s, cut)
  {
    assert ([c] + s)[1..] == s;
  }

  /** Trimming leaves a string alone when neither end is cut. */
  lemma TrimUntouched(s: string, cut: char -> bool)
    requires s == [] || (!cut(s[0]) && !cut(s[|s| - 1]))
    ensures Trim(s, cut) == s
  {
    var l := TrimLeft(s, cut);
    if |l| < |s| {
      assert cut(s[0]);
    }
    assert l == s;
  }

  /** strings.EqualFold, with ASCII case folding. */
  predicate EqualFold(a: string, b: string) {
    ToLower(a) == ToLower(b)
  }

  /** strings.Contains */
  predicate Contains(s: string, sub: string) {
    exists i :: 0 <= i <= |s| - |sub| && HasPrefix(s[i..], sub)
  }

  /** strings.Count with a one-character needle. */
  function Count(s: string, c: char): (n: nat)
    ensures n <= |s|
  {
    if s == [] then 0 else (if s[0] == c then 1 else 0) + Count(s[1..], c)
  }

  /** strings.Compare: lexicographic order, -1, 0 or 1. */
  function Compare(a: string, b: string): (r: int)
    ensures r == -1 || r == 0 || r == 1
    ensures r == 0 <==> a == b
  {
    if a == [] && b == [] then 0
    else if a == [] then -1
    else if b == [] then 1
    else if a[0] < b[0] then -1
    else if a[0] > b[0] then 1
    else Compare(a[1..], b[1..])
  }

  lemma {:induction false} CompareAntisymmetric(a: string, b: string)
    ensures Compare(a, b) == -Compare(b, a)
  {
    if a != [] && b != [] && a[0] == b[0] {
      CompareAntisymmetric(a[1..], b[1..]);
    }
  }
}
