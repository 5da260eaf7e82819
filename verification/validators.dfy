/** The three anchored regular expressions the form checks fields against,
    each stated twice: as the language the pattern denotes (a ghost
    predicate built from the pattern's pieces) and as a direct check over the
    characters, with a lemma that the two agree on every string. */
module Validators {
  import opened Text

  /** `[^\s@]`: any character but whitespace and `@`. */
  predicate IsAddressChar(c: char) {
    !IsWhitespace(c) && c != '@'
  }

  /** `[^\s@]+` */
  predicate AddressRun(s: string) {
    |s| >= 1 && forall i :: 0 <= i < |s| ==> IsAddressChar(s[i])
  }

  /** `\d{lo,hi}` */
  predicate DigitRun(s: string, lo: nat, hi: nat) {
    lo <= |s| <= hi && forall i :: 0 <= i < |s| ==> IsDigit(s[i])
  }

  /** `[A-Z]{n}` under the `i` flag */
  predicate LetterRun(s: string, n: nat) {
    |s| == n && forall i :: 0 <= i < |s| ==> IsAsciiLetter(s[i])
  }

  /** The strings `/^[^\s@]+@[^\s@]+\.[^\s@]+$/` matches. */
  ghost predicate EmailPattern(s: string) {
    exists local, host, tld ::
      && AddressRun(local) && AddressRun(host) && AddressRun(tld)
      && s == local + "@" + host + "." + tld
  }

  /** The strings `/^0\d{9,10}$/` matches. */
  ghost predicate PhonePattern(s: string) {
    exists digits :: DigitRun(digits, 9, 10) && s == "0" + digits
  }

  /** The strings `/^[A-Z]{2}\d{4,8}$/i` matches. */
  ghost predicate StudentIdPattern(s: string) {
    exists letters, digits :: LetterRun(letters, 2) && DigitRun(digits, 4, 8) && s == letters + digits
  }

  /** `isValidEmail`: no whitespace, exactly one `@`, something before it,
      and a dot after it that is neither the first nor the last character of
      the part after it. */
  predicate IsValidEmail(s: string) {
    && (forall i :: 0 <= i < |s| ==> !IsWhitespace(s[i]))
    && exists at :: 0 < at < |s| && s[at] == '@'
                    && (forall j :: 0 <= j < |s| && j != at ==> s[j] != '@')
                    && exists dot :: at + 1 < dot < |s| - 1 && s[dot] == '.'
  }

  /** `isValidPhone`: ten or eleven ASCII digits, the first of them `0`. */
  predicate IsValidPhone(s: string) {
    (|s| == 10 || |s| == 11) && s[0] == '0' && forall i :: 0 <= i < |s| ==> IsDigit(s[i])
  }

  /** `isValidStudentId`: two ASCII letters of either case, then four to
      eight ASCII digits. */
  predicate IsValidStudentId(s: string) {
    && 6 <= |s| <= 10
    && IsAsciiLetter(s[0]) && IsAsciiLetter(s[1])
    && forall i :: 2 <= i < |s| ==> IsDigit(s[i])
  }

  lemma EmailAgreesWithPattern(s: string)
    ensures IsValidEmail(s) <==> EmailPattern(s)
  {
    if IsValidEmail(s) {
      ValidEmailMatchesPattern(s);
    }
    if EmailPattern(s) {
      PatternIsValidEmail(s);
    }
  }

  /** Cutting at the `@` and at the inner dot yields the three runs. */
  lemma ValidEmailMatchesPattern(s: string)
    requires IsValidEmail(s)
    ensures EmailPattern(s)
  {
    var at :| 0 < at < |s| && s[at] == '@'
              && (forall j :: 0 <= j < |s| && j != at ==> s[j] != '@')
              && exists dot :: at + 1 < dot < |s| - 1 && s[dot] == '.';
    var dot :| at + 1 < dot < |s| - 1 && s[dot] == '.';
    assert forall j :: 0 <= j < |s| && j != at ==> IsAddressChar(s[j]);
    var local, host, tld := s[..at], s[at + 1..dot], s[dot + 1..];
    SliceIsAddressRun(s, 0, at);
    SliceIsAddressRun(s, at + 1, dot);
    SliceIsAddressRun(s, dot + 1, |s|);
    CutTwice(s, at, dot);
    assert AddressRun(local) && AddressRun(host) && AddressRun(tld) && s == local + "@" + host + "." + tld;
  }

  /** `s` is the concatenation of its pieces around positions `i` and `j`. */
  lemma CutTwice(s: string, i: int, j: int)
    requires 0 <= i < j < |s|
    ensures s == s[..i] + [s[i]] + s[i + 1..j] + [s[j]] + s[j + 1..]
  {
    var t := s[..i] + [s[i]] + s[i + 1..j] + [s[j]] + s[j + 1..];
    assert |t| == |s|;
    forall k | 0 <= k < |s|
      ensures t[k] == s[k]
    {
      if k < i {
      } else if k == i {
      } else if k < j {
        assert t[k] == s[i + 1..j][k - i - 1];
      } else if k == j {
      } else {
        assert t[k] == s[j + 1..][k - j - 1];
      }
    }
  }

  lemma SliceIsAddressRun(s: string, lo: int, hi: int)
    requires 0 <= lo < hi <= |s|
    requires forall j :: lo <= j < hi ==> IsAddressChar(s[j])
    ensures AddressRun(s[lo..hi])
  {
    assert forall i :: 0 <= i < hi - lo ==> s[lo..hi][i] == s[lo + i];
  }

  /** A string of the pattern's shape has its only `@` right after the local
      part and its dot inside the domain. */
  lemma PatternIsValidEmail(s: string)
    requires EmailPattern(s)
    ensures IsValidEmail(s)
  {
    var local, host, tld :| AddressRun(local) && AddressRun(host) && AddressRun(tld)
                            && s == local + "@" + host + "." + tld;
    var at := |local|;
    assert s[at] == '@';
    assert s[at + 1 + |host|] == '.';
    forall j | 0 <= j < |s|
      ensures !IsWhitespace(s[j])
      ensures j != at ==> s[j] != '@'
    {
      if j < at {
        assert s[j] == local[j];
      } else if at < j < at + 1 + |host| {
        assert s[j] == host[j - at - 1];
      } else if at + 1 + |host| < j {
        assert s[j] == tld[j - at - 2 - |host|];
      }
    }
  }

  lemma PhoneAgreesWithPattern(s: string)
    ensures IsValidPhone(s) <==> PhonePattern(s)
  {
    if IsValidPhone(s) {
      var digits := s[1..];
      assert DigitRun(digits, 9, 10);
      assert s == "0" + digits;
    }
    if PhonePattern(s) {
      var digits :| DigitRun(digits, 9, 10) && s == "0" + digits;
      assert forall i :: 1 <= i < |s| ==> s[i] == digits[i - 1];
    }
  }

  lemma StudentIdAgreesWithPattern(s: string)
    ensures IsValidStudentId(s) <==> StudentIdPattern(s)
  {
    if IsValidStudentId(s) {
      var letters, digits := s[..2], s[2..];
      assert LetterRun(letters, 2);
      assert DigitRun(digits, 4, 8);
      assert s == letters + digits;
    }
    if StudentIdPattern(s) {
      var letters, digits :| LetterRun(letters, 2) && DigitRun(digits, 4, 8) && s == letters + digits;
      assert s[0] == letters[0] && s[1] == letters[1];
      assert forall i :: 2 <= i < |s| ==> s[i] == digits[i - 2];
    }
  }

  /** The cases the form's own hints describe. */
  lemma PhoneExamples()
    ensures IsValidPhone("0123456789") && IsValidPhone("01234567890")
    ensures !IsValidPhone("123456789") && !IsValidPhone("01234567890123")
    ensures !IsValidPhone("1234567890") && !IsValidPhone("012345678a")
  {
    assert "012345678a"[9] == 'a';
  }

  lemma StudentIdExamples()
    ensures IsValidStudentId("AB1234") && IsValidStudentId("ab1234") && IsValidStudentId("Sv12345678")
    ensures !IsValidStudentId("A1234") && !IsValidStudentId("AB123") && !IsValidStudentId("ABC1234")
  {
    assert "ABC1234"[2] == 'C';
  }

  lemma EmailAccepted()
    ensures IsValidEmail("an@uni.vn")
  {
    var good := "an@uni.vn";
    assert good[2] == '@' && good[6] == '.';
  }

  /** Missing dot, empty local part, dot first or last in the domain. */
  lemma EmailRejectedShapes()
    ensures !IsValidEmail("an@uni") && !IsValidEmail("@uni.vn")
    ensures !IsValidEmail("an@.vn") && !IsValidEmail("an@uni.")
  {
  }

  /** Whitespace anywhere, or a second `@`. */
  lemma EmailRejectedCharacters()
    ensures !IsValidEmail("a n@uni.vn") && !IsValidEmail("a@b@uni.vn")
  {
    assert IsWhitespace("a n@uni.vn"[1]);
    var twoAts := "a@b@uni.vn";
    assert twoAts[1] == '@' && twoAts[3] == '@';
  }
}
