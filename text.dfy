/** The JavaScript string operations the source applies to names:
    `String.prototype.trim`, the `\s` class of regular expressions (both use
    the ECMAScript WhiteSpace and LineTerminator code points) and
    `toLowerCase`, of which only the ASCII letters are modelled. */
module Text {
  import Seqs

  /** WhiteSpace or LineTerminator (ECMA-262, sections 12.2 and 12.3). */
  predicate IsSpace(c: char) {
    || c == '\t' || c == '\n' || c == '\U{B}' || c == '\U{C}' || c == '\r' || c == ' '
    || c == '\U{A0}' || c == '\U{1680}' || ('\U{2000}' <= c <= '\U{200A}')
    || c == '\U{2028}' || c == '\U{2029}' || c == '\U{202F}' || c == '\U{205F}'
    || c == '\U{3000}' || c == '\U{FEFF}'
  }

  predicate IsUpper(c: char) {
    'A' <= c <= 'Z'
  }

  function TrimStart(s: string): (r: string)
    ensures |r| <= |s| && r == s[|s| - |r|..]
    ensures r != [] ==> !IsSpace(r[0])
    ensures forall i :: 0 <= i < |s| - |r| ==> IsSpace(s[i])
    decreases |s|
  {
    if s != [] && IsSpace(s[0]) then TrimStart(s[1..]) else s
  }

  function TrimEnd(s: string): (r: string)
    ensures |r| <= |s| && r == s[..|r|]
    ensures r != [] ==> !IsSpace(r[|r| - 1])
    ensures forall i :: |r| <= i < |s| ==> IsSpace(s[i])
    decreases |s|
  {
    if s != [] && IsSpace(s[|s| - 1]) then TrimEnd(s[..|s| - 1]) else s
  }

  /** `s.trim()`: `s` without its leading and trailing white space. */
  function Trim(s: string): (r: string)
    ensures r != [] ==> !IsSpace(r[0]) && !IsSpace(r[|r| - 1])
  {
    TrimEnd(TrimStart(s))
  }

  /** A string trims to `""` exactly when it is all white space. */
  lemma TrimBlank(s: string)
    ensures Trim(s) == [] <==> forall i :: 0 <= i < |s| ==> IsSpace(s[i])
  {
    var a := TrimStart(s);
    if Trim(s) == [] {
      forall i | 0 <= i < |s|
        ensures IsSpace(s[i])
      {
        if i >= |s| - |a| {
          assert s[i] == a[i - (|s| - |a|)];
        }
      }
    } else {
      assert !IsSpace(Trim(s)[0]);
      assert Trim(s)[0] == a[0] == s[|s| - |a|];
    }
  }

  /** Trimming removes only white space: a filter that keeps no white space
      sees the same characters before and after. */
  lemma TrimFilter(s: string, q: char -> bool)
    requires forall i :: 0 <= i < |s| && q(s[i]) ==> !IsSpace(s[i])
    ensures Seqs.Filter(Trim(s), q) == Seqs.Filter(s, q)
  {
    var a := TrimStart(s);
    FilterDropPrefix(s, |s| - |a|, q);
    var b := TrimEnd(a);
    FilterDropSuffix(a, |b|, q);
  }

  lemma FilterDropPrefix(s: string, k: nat, q: char -> bool)
    requires k <= |s| && forall i :: 0 <= i < k ==> !q(s[i])
    ensures Seqs.Filter(s, q) == Seqs.Filter(s[k..], q)
  {
    assert s == s[..k] + s[k..];
    DropFiltered(s[..k], q);
    Seqs.FilterAppend(s[..k], s[k..], q);
  }

  lemma FilterDropSuffix(s: string, k: nat, q: char -> bool)
    requires k <= |s| && forall i :: k <= i < |s| ==> !q(s[i])
    ensures Seqs.Filter(s, q) == Seqs.Filter(s[..k], q)
  {
    assert s == s[..k] + s[k..];
    DropFiltered(s[k..], q);
    Seqs.FilterAppend(s[..k], s[k..], q);
  }

  lemma {:induction false} DropFiltered(s: string, q: char -> bool)
    requires forall i :: 0 <= i < |s| ==> !q(s[i])
    ensures Seqs.Filter(s, q) == []
    decreases |s|
  {
    if s != [] {
      DropFiltered(s[1..], q);
    }
  }

  /** A string with no white space trims to itself. */
  lemma TrimNoSpace(s: string)
    requires forall i :: 0 <= i < |s| ==> !IsSpace(s[i])
    ensures Trim(s) == s
  {
  }

  /** `c.toLowerCase()` for an ASCII letter; every other character is kept. */
  function LowerChar(c: char): (r: char)
    ensures !IsUpper(r)
    ensures IsSpace(r) == IsSpace(c)
  {
    if IsUpper(c) then (c as int + 32) as char else c
  }

  function ToLower(s: string): (r: string)
    ensures |r| == |s| && forall i :: 0 <= i < |s| ==> r[i] == LowerChar(s[i])
  {
    seq(|s|, i requires 0 <= i < |s| => LowerChar(s[i]))
  }

  /** Lowercasing does not move white space, so it commutes with trimming. */
  lemma {:induction false} LowerTrimStart(s: string)
    ensures ToLower(TrimStart(s)) == TrimStart(ToLower(s))
    decreases |s|
  {
    if s != [] && IsSpace(s[0]) {
      assert ToLower(s)[1..] == ToLower(s[1..]);
      LowerTrimStart(s[1..]);
    }
  }

  lemma {:induction false} LowerTrimEnd(s: string)
    ensures ToLower(TrimEnd(s)) == TrimEnd(ToLower(s))
    decreases |s|
  {
    if s != [] && IsSpace(s[|s| - 1]) {
      assert ToLower(s)[..|s| - 1] == ToLower(s[..|s| - 1]);
      LowerTrimEnd(s[..|s| - 1]);
    }
  }

  lemma LowerTrim(s: string)
    ensures ToLower(Trim(s)) == Trim(ToLower(s))
  {
    LowerTrimStart(s);
    LowerTrimEnd(TrimStart(s));
  }
}
