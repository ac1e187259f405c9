/** C strings and `rstrip` (src/helpers.c).
 *
 *  A C string is the content of a buffer up to its first NUL.  `rstrip` walks
 *  that content once, remembering where the current trailing run of fillers
 *  (space, carriage return, line feed) began, and then overwrites that run with
 *  NULs in place.
 */
module Strip {

  /** The index of the first `nul` in `a`: strlen, for a buffer that holds a
   *  terminator. */
  function TerminatorIndex<T(==)>(a: seq<T>, nul: T): (n: nat)
    requires nul in a
    ensures n < |a| && a[n] == nul
    ensures nul !in a[..n]
  {
    if a[0] == nul then 0
    else
      assert nul in a[1..];
      var m := TerminatorIndex(a[1..], nul);
      assert a[1..][..m] == a[1..m + 1];
      1 + m
  }

  /** The C string held by a char buffer. */
  function CString(a: seq<char>): seq<char>
    requires '\0' in a
  {
    a[..TerminatorIndex(a, '\0')]
  }

  /** is_whitespace: only the space character. */
  predicate IsWhitespace(c: char) { c == ' ' }

  /** is_lfcr */
  predicate IsLfCr(c: char) { c == '\r' || c == '\n' }

  /** A filler is what rstrip removes. */
  predicate IsFiller(c: char) { IsWhitespace(c) || IsLfCr(c) }

  /** The index just past the last non-filler character of `s` (0 when `s`
   *  holds only fillers). */
  function KeptLength(s: string): (k: nat)
    ensures k <= |s|
    ensures k > 0 ==> !IsFiller(s[k - 1])
    ensures forall i :: k <= i < |s| ==> IsFiller(s[i])
  {
    if s == [] then 0
    else if IsFiller(s[|s| - 1]) then KeptLength(s[..|s| - 1])
    else |s|
  }

  /** What rstrip leaves of a string. */
  function RStrip(s: string): string
  {
    s[..KeptLength(s)]
  }

  /** `a` with positions from..to-1 set to NUL: the effect of
   *  memset(a + from, 0, to - from). */
  function Cleared(a: seq<char>, from: nat, to: nat): (b: seq<char>)
    requires from <= to <= |a|
    ensures |b| == |a|
  {
    a[..from] + seq(to - from, _ => '\0') + a[to..]
  }

  /** Extending a string by one character moves the kept length to the end,
   *  unless the character is a filler. */
  lemma KeptLengthStep(s: string, c: char)
    ensures KeptLength(s + [c]) == if IsFiller(c) then KeptLength(s) else |s| + 1
  {
    assert (s + [c])[..|s|] == s;
  }

  /** rstrip (helpers.c:23-45) on a buffer holding a C string.  Every byte
   *  before the final run of fillers is unchanged, the run itself (and
   *  nothing at or past the terminator) becomes NUL. */
  method RStripInPlace(src: array<char>)
    requires '\0' in src[..]
    modifies src
    ensures var s := CString(old(src[..]));
            src[..] == Cleared(old(src[..]), KeptLength(s), |s|)
    ensures '\0' in src[..] && CString(src[..]) == RStrip(CString(old(src[..])))
  {
    ghost var a := src[..];
    ghost var n := TerminatorIndex(a, '\0');
    ghost var s := a[..n];
    var size: nat := 0;
    var fillerIdx: int := -1;  // SIZE_MAX: no trailing run of fillers yet
    var idx: nat := 0;
    while true
      invariant idx <= n && size == idx
      invariant fillerIdx == if KeptLength(s[..idx]) < idx then KeptLength(s[..idx]) else -1
      invariant src[..] == a
      decreases n - idx
    {
      if src[idx] == '\0' {
        break;
      }
      assert idx < n;
      size := size + 1;
      var c := src[idx];
      assert s[..idx + 1] == s[..idx] + [c];
      KeptLengthStep(s[..idx], c);
      if !(IsWhitespace(c) || IsLfCr(c)) {
        fillerIdx := -1;
        idx := idx + 1;
        continue;
      }
      if fillerIdx != -1 {
        idx := idx + 1;
        continue;
      }
      fillerIdx := idx;
      idx := idx + 1;
    }
    assert idx == n && s[..idx] == s;
    if fillerIdx == -1 || fillerIdx == size {
      assert Cleared(a, KeptLength(s), |s|) == a;
      StrippedString(a);
      return;
    }
    forall i | fillerIdx <= i < size {
      src[i] := '\0';
    }
    assert src[..] == Cleared(a, KeptLength(s), |s|);
    StrippedString(a);
  }

  /** After rstrip the buffer holds exactly RStrip of the string it held. */
  lemma StrippedString(a: seq<char>)
    requires '\0' in a
    ensures var s := CString(a);
            var b := Cleared(a, KeptLength(s), |s|);
            '\0' in b && CString(b) == RStrip(s)
  {
    var s := CString(a);
    var k := KeptLength(s);
    var b := Cleared(a, k, |s|);
    assert b[k] == '\0';
    assert b[..k] == s[..k];
  }

  /** The stripped string is a prefix of the original, every dropped
   *  character is a filler, and the stripped string does not end in one:
   *  interior fillers and other characters (a tab, say) are kept. */
  lemma RStripShape(s: string)
    ensures var r := RStrip(s);
            r <= s &&
            (r != [] ==> !IsFiller(r[|r| - 1])) &&
            (forall i :: |r| <= i < |s| ==> IsFiller(s[i]))
  {
  }

  /** rstrip is idempotent. */
  lemma RStripIdempotent(s: string)
    ensures RStrip(RStrip(s)) == RStrip(s)
  {
    var r := RStrip(s);
    if r != [] {
      assert r[..|r|] == r;
    }
  }

  /** A string with no trailing filler is left as it is; a string of
   *  fillers alone becomes empty. */
  lemma {:induction false} RStripExtremes(s: string)
    ensures s == [] || !IsFiller(s[|s| - 1]) ==> RStrip(s) == s
    ensures (forall i :: 0 <= i < |s| ==> IsFiller(s[i])) ==> RStrip(s) == []
  {
    if s != [] && forall i :: 0 <= i < |s| ==> IsFiller(s[i]) {
      RStripExtremes(s[..|s| - 1]);
    }
  }

  /** A tab is not a filler; interior spaces survive. */
  lemma RStripExamples()
    ensures RStrip("a b \r\n") == "a b"
    ensures RStrip("x\t") == "x\t"
    ensures RStrip(" \n ") == ""
  {
    assert " \n "[..2] == " \n" && " \n"[..1] == " " && " "[..0] == "";
    assert "a b \r\n"[..5] == "a b \r" && "a b \r"[..4] == "a b " && "a b "[..3] == "a b";
  }
}
