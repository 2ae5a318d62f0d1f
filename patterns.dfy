/** The regular expressions the calendar and e-mail tools match stripped input
    against, written as character-class predicates. Python's `\d` is taken to be
    the ASCII digits. Each pattern is anchored at both ends; Python's `$` would
    also accept one trailing newline, but every matched string has been stripped
    first, so it never ends in one. */
module Patterns {
  import opened Text

  predicate IsDigit(c: char) { '0' <= c <= '9' }

  predicate IsAsciiLetter(c: char) { ('a' <= c <= 'z') || ('A' <= c <= 'Z') }

  /** `[a-zA-Z0-9._%+-]` */
  predicate IsLocalChar(c: char) {
    IsAsciiLetter(c) || IsDigit(c) || c == '.' || c == '_' || c == '%' || c == '+' || c == '-'
  }

  /** `[a-zA-Z0-9.-]` */
  predicate IsDomainChar(c: char) {
    IsAsciiLetter(c) || IsDigit(c) || c == '.' || c == '-'
  }

  /** `^\d{4}-\d{2}-\d{2}$` */
  predicate IsDate(s: string) {
    && |s| == 10
    && IsDigit(s[0]) && IsDigit(s[1]) && IsDigit(s[2]) && IsDigit(s[3])
    && s[4] == '-' && IsDigit(s[5]) && IsDigit(s[6])
    && s[7] == '-' && IsDigit(s[8]) && IsDigit(s[9])
  }

  /** `\d{2}:\d{2}:\d{2}` */
  predicate IsClock(s: string) {
    && |s| == 8
    && IsDigit(s[0]) && IsDigit(s[1]) && s[2] == ':'
    && IsDigit(s[3]) && IsDigit(s[4]) && s[5] == ':'
    && IsDigit(s[6]) && IsDigit(s[7])
  }

  /** `(?:Z|[+-]\d{2}:\d{2})` */
  predicate IsOffset(s: string) {
    || s == "Z"
    || (&& |s| == 6 && (s[0] == '+' || s[0] == '-')
        && IsDigit(s[1]) && IsDigit(s[2]) && s[3] == ':' && IsDigit(s[4]) && IsDigit(s[5]))
  }

  /** `^\d{4}-\d{2}-\d{2}T\d{2}:\d{2}:\d{2}(?:Z|[+-]\d{2}:\d{2})$` */
  predicate IsDateTime(s: string) {
    |s| >= 19 && IsDate(s[..10]) && s[10] == 'T' && IsClock(s[11..19]) && IsOffset(s[19..])
  }

  /** The e-mail pattern matched with the `@` at index `at` and the last `.` at
      index `dot`: a non-empty local part, `@`, a non-empty domain, `.`, and a
      top-level part of two or more ASCII letters. */
  predicate EmailSplit(s: string, at: nat, dot: nat) {
    && 0 < at && at + 1 < dot && dot + 2 < |s|
    && (forall k | 0 <= k < at :: IsLocalChar(s[k]))
    && s[at] == '@'
    && (forall k | at < k < dot :: IsDomainChar(s[k]))
    && s[dot] == '.'
    && (forall k | dot < k < |s| :: IsAsciiLetter(s[k]))
  }

  /** `^[a-zA-Z0-9._%+-]+@[a-zA-Z0-9.-]+\.[a-zA-Z]{2,}$` */
  predicate IsEmail(s: string) {
    exists at: nat, dot: nat | at < dot < |s| :: EmailSplit(s, at, dot)
  }

  // ---------------------------------------------------------------------------

  /** Every accepted date-time is `YYYY-MM-DDTHH:MM:SS` followed by `Z` (20
      characters) or by a `+HH:MM`/`-HH:MM` offset (25 characters). */
  lemma DateTimeLength(s: string)
    requires IsDateTime(s)
    ensures |s| == 20 || |s| == 25
    ensures |s| == 20 <==> s[19] == 'Z'
  {
  }

  /** A matching date-time or date has no surrounding whitespace, so stripping it
      changes nothing: the pattern accepts `s` exactly when it accepts `s.strip()`
      and `s` has no surrounding whitespace. */
  lemma {:induction false} DateTimeIsStripped(s: string)
    requires IsDateTime(s) || IsDate(s)
    ensures Strip(s) == s
  {
    StripOfTrimmed(s);
  }

  /** The match of the e-mail pattern is unambiguous: there is one `@`, and the
      dot before the top-level part is the last dot. */
  lemma {:induction false} EmailSplitUnique(s: string, a1: nat, d1: nat, a2: nat, d2: nat)
    requires EmailSplit(s, a1, d1) && EmailSplit(s, a2, d2)
    ensures a1 == a2 && d1 == d2
  {
    assert s[a1] == '@' && s[a2] == '@';
    assert s[d1] == '.' && s[d2] == '.';
  }

  /** An accepted address holds exactly one `@`, is at least six characters
      long (`a@b.cd`) and has no surrounding whitespace. */
  lemma {:induction false} EmailShape(s: string)
    requires IsEmail(s)
    ensures |s| >= 6
    ensures exists at: nat | at < |s| :: s[at] == '@' && forall k | 0 <= k < |s| && k != at :: s[k] != '@'
    ensures Strip(s) == s
  {
    var at: nat, dot: nat :| at < dot < |s| && EmailSplit(s, at, dot);
    forall k | 0 <= k < |s| && k != at ensures s[k] != '@' {
      if k < at {
        assert IsLocalChar(s[k]);
      } else if k < dot {
        assert IsDomainChar(s[k]);
      } else if k > dot {
        assert IsAsciiLetter(s[k]);
      }
    }
    StripOfTrimmed(s);
  }
}
