/** Character classes and trimming as the ECMAScript language defines them:
    `\s` in a regular expression and `String.prototype.trim` both work on the
    WhiteSpace and LineTerminator code points. */
module Text {

  /** WhiteSpace (tab, vertical tab, form feed, space, no-break space, byte
      order mark and the other space separators) and LineTerminator (line
      feed, carriage return, line and paragraph separators). */
  predicate IsWhitespace(c: char) {
    || c == '\t' || c == '\n' || c == '\U{000B}' || c == '\U{000C}' || c == '\r'
    || c == ' ' || c == '\U{00A0}' || c == '\U{1680}'
    || ('\U{2000}' <= c <= '\U{200A}')
    || c == '\U{2028}' || c == '\U{2029}' || c == '\U{202F}' || c == '\U{205F}'
    || c == '\U{3000}' || c == '\U{FEFF}'
  }

  /** `\d`: an ASCII decimal digit. */
  predicate IsDigit(c: char) {
    '0' <= c <= '9'
  }

  /** `[A-Z]` under the `i` flag: an ASCII letter of either case.  Without the
      `u` flag, case folding never maps a non-ASCII character onto ASCII. */
  predicate IsAsciiLetter(c: char) {
    ('A' <= c <= 'Z') || ('a' <= c <= 'z')
  }

  predicate AllWhitespace(s: string) {
    forall i :: 0 <= i < |s| ==> IsWhitespace(s[i])
  }

  /** A string with no whitespace at either end. */
  predicate IsTrimmed(s: string) {
    s == [] || (!IsWhitespace(s[0]) && !IsWhitespace(s[|s| - 1]))
  }

  /** The first position at or after `k` that does not hold whitespace, or
      `|s|` when there is none. */
  function SkipForward(s: string, k: nat): (r: nat)
    requires k <= |s|
    ensures k <= r <= |s|
    ensures forall i :: k <= i < r ==> IsWhitespace(s[i])
    ensures r == |s| || !IsWhitespace(s[r])
    decreases |s| - k
  {
    if k < |s| && IsWhitespace(s[k]) then SkipForward(s, k + 1) else k
  }

  /** The end of `s[lo..hi]` once trailing whitespace is dropped. */
  function SkipBackward(s: string, lo: nat, hi: nat): (r: nat)
    requires lo <= hi <= |s|
    ensures lo <= r <= hi
    ensures forall i :: r <= i < hi ==> IsWhitespace(s[i])
    ensures r == lo || !IsWhitespace(s[r - 1])
    decreases hi
  {
    if lo < hi && IsWhitespace(s[hi - 1]) then SkipBackward(s, lo, hi - 1) else hi
  }

  /** Where `String.prototype.trim` cuts: everything before `start` and from
      `end` on is whitespace, and the kept part neither starts nor ends with
      whitespace. */
  function TrimBounds(s: string): (b: (nat, nat))
    ensures b.0 <= b.1 <= |s|
    ensures forall i :: 0 <= i < b.0 ==> IsWhitespace(s[i])
    ensures forall i :: b.1 <= i < |s| ==> IsWhitespace(s[i])
    ensures b.0 == b.1 || (!IsWhitespace(s[b.0]) && !IsWhitespace(s[b.1 - 1]))
  {
    var start := SkipForward(s, 0);
    (start, SkipBackward(s, start, |s|))
  }

  /** `String.prototype.trim`: the slice between the trim bounds.  No
      whitespace is left at either end, and the result is empty exactly when
      `s` is all whitespace. */
  function Trim(s: string): (r: string)
    ensures IsTrimmed(r)
    ensures r == [] <==> AllWhitespace(s)
  {
    var b := TrimBounds(s);
    s[b.0..b.1]
  }

  /** Trimming twice is trimming once. */
  lemma TrimOfTrimmed(s: string)
    requires IsTrimmed(s)
    ensures Trim(s) == s
  {
    if s != [] {
      assert SkipForward(s, 0) == 0;
      assert SkipBackward(s, 0, |s|) == |s|;
    }
  }

  lemma TrimIdempotent(s: string)
    ensures Trim(Trim(s)) == Trim(s)
  {
    TrimOfTrimmed(Trim(s));
  }
}
