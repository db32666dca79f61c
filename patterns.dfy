/**
 * The three regular expressions of the user form, written as predicates on
 * strings, each with its regular-expression reading as a reference definition.
 */
module Patterns {
  import opened Text

  /** `/^\S+@\S+\.\S+$/.test(s)`: no whitespace, an `@` after at least one
      character, and a `.` after at least one more with at least one after it. */
  predicate IsEmail(s: string) {
    NoWhitespace(s) &&
    exists i | 1 <= i < |s| :: s[i] == '@' && exists j | i + 2 <= j <= |s| - 2 :: s[j] == '.'
  }

  /** What `\S+` matches. */
  ghost predicate Word(w: string) {
    w != [] && NoWhitespace(w)
  }

  function EmailOf(local: string, host: string, tld: string): string {
    local + "@" + host + "." + tld
  }

  /** The regular expression read as a concatenation of its parts. */
  ghost predicate MatchesEmailPattern(s: string) {
    exists local, host, tld :: Word(local) && Word(host) && Word(tld) && s == EmailOf(local, host, tld)
  }

  lemma EmailIsPattern(s: string)
    ensures IsEmail(s) <==> MatchesEmailPattern(s)
  {
    if IsEmail(s) {
      EmailSplits(s);
    }
    if MatchesEmailPattern(s) {
      var local, host, tld :| Word(local) && Word(host) && Word(tld) && s == EmailOf(local, host, tld);
      PartsMakeEmail(local, host, tld);
    }
  }

  lemma EmailSplits(s: string)
    requires IsEmail(s)
    ensures MatchesEmailPattern(s)
  {
    var i :| 1 <= i < |s| && s[i] == '@' && exists j | i + 2 <= j <= |s| - 2 :: s[j] == '.';
    var j :| i + 2 <= j <= |s| - 2 && s[j] == '.';
    var local, host, tld := s[..i], s[i + 1..j], s[j + 1..];
    assert s == EmailOf(local, host, tld);
    assert Word(local) && Word(host) && Word(tld);
  }

  lemma PartsMakeEmail(local: string, host: string, tld: string)
    requires Word(local) && Word(host) && Word(tld)
    ensures IsEmail(EmailOf(local, host, tld))
  {
    var s := EmailOf(local, host, tld);
    var i, j := |local|, |local| + 1 + |host|;
    assert s[i] == '@' && s[j] == '.';
    forall k | 0 <= k < |s| ensures !IsWhitespace(s[k]) {
      if k < i {
        assert s[k] == local[k];
      } else if i < k < j {
        assert s[k] == host[k - i - 1];
      } else if j < k {
        assert s[k] == tld[k - j - 1];
      }
    }
  }

  const LinkedInPrefix: string := "https://linkedin.com/"
  const LinkedInWwwPrefix: string := "https://www.linkedin.com/"

  /** What `.+$` matches: one or more characters, none of them a line terminator. */
  predicate AnyChars(r: string) {
    r != [] && forall k :: 0 <= k < |r| ==> !IsLineTerminator(r[k])
  }

  /** `/^https:\/\/(www\.)?linkedin\.com\/.+$/.test(s)`. */
  predicate IsLinkedIn(s: string) {
    (LinkedInPrefix <= s && AnyChars(s[|LinkedInPrefix|..])) ||
    (LinkedInWwwPrefix <= s && AnyChars(s[|LinkedInWwwPrefix|..]))
  }

  /** The regular expression read as one of the two prefixes followed by the rest. */
  ghost predicate MatchesLinkedInPattern(s: string) {
    exists rest :: AnyChars(rest) && (s == LinkedInPrefix + rest || s == LinkedInWwwPrefix + rest)
  }

  lemma LinkedInIsPattern(s: string)
    ensures IsLinkedIn(s) <==> MatchesLinkedInPattern(s)
  {
    if LinkedInPrefix <= s && AnyChars(s[|LinkedInPrefix|..]) {
      assert s == LinkedInPrefix + s[|LinkedInPrefix|..];
    } else if LinkedInWwwPrefix <= s && AnyChars(s[|LinkedInWwwPrefix|..]) {
      assert s == LinkedInWwwPrefix + s[|LinkedInWwwPrefix|..];
    }
    if MatchesLinkedInPattern(s) {
      var rest :| AnyChars(rest) && (s == LinkedInPrefix + rest || s == LinkedInWwwPrefix + rest);
      if s == LinkedInPrefix + rest {
        assert s[|LinkedInPrefix|..] == rest;
      } else {
        assert s[|LinkedInWwwPrefix|..] == rest;
      }
    }
  }

  /** `/^\d{6}$/.test(s)`: exactly six ASCII digits. */
  predicate IsPin(s: string) {
    |s| == 6 && forall k :: 0 <= k < |s| ==> IsDigit(s[k])
  }
}
