/**
 * The email check of the interest form: the JavaScript regular expression
 * `^[^\s@]+@[^\s@]+\.[^\s@]+$`, stated declaratively (a split of the address
 * into local part, `@`, domain head, `.`, domain tail), restated in plain terms
 * (one `@`, no whitespace, a `.` inside the domain), and implemented by a
 * one-pass scanner proved to agree with it.
 */
module EmailRegex {

  /** JavaScript's `\s`: the ECMAScript WhiteSpace and LineTerminator characters.
      The general lemmas and the scanner hold for any whitespace set that leaves
      out `@` and `.`; the concrete examples also rely on a space being
      whitespace and on the letters not being whitespace. */
  predicate IsWs(c: char) {
    c == '\t' || c == '\n' || c == '\U{000B}' || c == '\U{000C}' || c == '\r' ||
    c == ' ' || c == '\U{00A0}' || c == '\U{1680}' || ('\U{2000}' <= c <= '\U{200A}') ||
    c == '\U{2028}' || c == '\U{2029}' || c == '\U{202F}' || c == '\U{205F}' ||
    c == '\U{3000}' || c == '\U{FEFF}'
  }

  /** A character admitted by the class `[^\s@]` (note that `.` is one). */
  predicate InClass(c: char) {
    c != '@' && !IsWs(c)
  }

  /** Every character of `p` is admitted by `[^\s@]`. */
  ghost predicate ClassRun(p: string) {
    forall k :: 0 <= k < |p| ==> InClass(p[k])
  }

  /** `s` splits as s[..at] + "@" + s[at+1..dot] + "." + s[dot+1..] with all three
      pieces non-empty runs of `[^\s@]`: one way of matching the regex. */
  ghost predicate SplitsAt(s: string, at: int, dot: int) {
    0 < at && at + 1 < dot && dot + 1 < |s| &&
    s[at] == '@' && s[dot] == '.' &&
    ClassRun(s[..at]) && ClassRun(s[at + 1..dot]) && ClassRun(s[dot + 1..])
  }

  /** `s` matches `^[^\s@]+@[^\s@]+\.[^\s@]+$`. */
  ghost predicate ValidEmail(s: string) {
    exists at, dot :: SplitsAt(s, at, dot)
  }

  /** The regex in plain terms: no whitespace, exactly one `@`, not at the start,
      and a `.` in the domain that is neither its first nor its last character. */
  ghost predicate PlainShape(s: string) {
    (forall k :: 0 <= k < |s| ==> !IsWs(s[k])) &&
    exists at :: 0 < at < |s| && s[at] == '@' &&
      (forall k :: 0 <= k < |s| && s[k] == '@' ==> k == at) &&
      exists dot :: at + 1 < dot < |s| - 1 && s[dot] == '.'
  }

  /** Every character of `s` outside the `@` and the `.` of a split lies in one of
      the three pieces, so it is neither whitespace nor a second `@`. */
  lemma SplitCharacters(s: string, at: int, dot: int, k: int)
    requires SplitsAt(s, at, dot)
    requires 0 <= k < |s|
    ensures !IsWs(s[k])
    ensures s[k] == '@' <==> k == at
  {
  }

  /** The declarative regex semantics and the plain-terms description agree. */
  lemma ValidEmailIffPlainShape(s: string)
    ensures ValidEmail(s) <==> PlainShape(s)
  {
    if ValidEmail(s) {
      var at, dot :| SplitsAt(s, at, dot);
      forall k | 0 <= k < |s| ensures !IsWs(s[k]) && (s[k] == '@' ==> k == at) {
        SplitCharacters(s, at, dot, k);
      }
      assert at + 1 < dot < |s| - 1 && s[dot] == '.';
    }
    if PlainShape(s) {
      var at :| 0 < at < |s| && s[at] == '@' &&
        (forall k :: 0 <= k < |s| && s[k] == '@' ==> k == at) &&
        exists dot :: at + 1 < dot < |s| - 1 && s[dot] == '.';
      var dot :| at + 1 < dot < |s| - 1 && s[dot] == '.';
      assert forall k :: 0 <= k < |s| && k != at ==> InClass(s[k]);
      assert SplitsAt(s, at, dot);
    }
  }

  /** The regex test `emailRegex.test(s)`, as a single left-to-right scan that
      remembers whether whitespace was seen, where the first `@` is, whether a
      second one followed, and where the first `.` after the domain's first
      character is. */
  method Matches(s: string) returns (ok: bool)
    ensures ok == ValidEmail(s)
  {
    var i := 0;
    var sawWs := false;
    var at := -1;
    var extraAt := false;
    var dot := -1;
    while i < |s|
      invariant 0 <= i <= |s|
      invariant sawWs == exists k :: 0 <= k < i && IsWs(s[k])
      invariant -1 <= at < i
      invariant at == -1 ==> forall k :: 0 <= k < i ==> s[k] != '@'
      invariant at >= 0 ==> s[at] == '@' && forall k :: 0 <= k < at ==> s[k] != '@'
      invariant extraAt == (at >= 0 && exists k :: at < k < i && s[k] == '@')
      invariant dot != -1 ==> at >= 0 && at + 1 < dot < i && s[dot] == '.'
      invariant dot != -1 ==> forall k :: at + 1 < k < dot ==> s[k] != '.'
      invariant dot == -1 && at >= 0 ==> forall k :: at + 1 < k < i ==> s[k] != '.'
    {
      var c := s[i];
      if IsWs(c) {
        sawWs := true;
      }
      if c == '@' {
        if at == -1 {
          at := i;
        } else {
          extraAt := true;
        }
      } else if c == '.' && at >= 0 && at + 1 < i && dot == -1 {
        dot := i;
      }
      i := i + 1;
    }
    ok := !sawWs && at > 0 && !extraAt && dot != -1 && dot < |s| - 1;
    ValidEmailIffPlainShape(s);
    if ok {
      assert forall k :: 0 <= k < |s| && s[k] == '@' ==> k == at;
      assert PlainShape(s);
    }
  }

  /** Any three non-empty runs of `[^\s@]` joined by `@` and `.` match. */
  lemma JoinMatches(local: string, head: string, tail: string)
    requires |local| > 0 && |head| > 0 && |tail| > 0
    requires ClassRun(local) && ClassRun(head) && ClassRun(tail)
    ensures ValidEmail(local + "@" + head + "." + tail)
  {
    var s := local + "@" + head + "." + tail;
    var at, dot := |local|, |local| + 1 + |head|;
    assert s[..at] == local;
    assert s[at + 1..dot] == head;
    assert s[dot + 1..] == tail;
    assert SplitsAt(s, at, dot);
  }

  /** Addresses the regex accepts: a dot in the domain may sit next to another. */
  lemma AcceptedExamples()
    ensures ValidEmail("a@b.c")
    ensures ValidEmail("a@b..c")
  {
    assert SplitsAt("a@b.c", 1, 3);
    assert SplitsAt("a@b..c", 1, 3);
  }

  /** Addresses the regex rejects: a dot first or last in the domain, whitespace,
      a second `@`, an empty local part, no dot in the domain. */
  lemma RejectedExamples()
    ensures !ValidEmail("a@.c")
    ensures !ValidEmail("a@b.")
    ensures !ValidEmail("a b@c.d")
    ensures !ValidEmail("a@b@c.d")
    ensures !ValidEmail("@b.c")
    ensures !ValidEmail("a@bc")
  {
    ValidEmailIffPlainShape("a@.c");
    ValidEmailIffPlainShape("a@b.");
    ValidEmailIffPlainShape("a b@c.d");
    assert IsWs("a b@c.d"[1]);
    ValidEmailIffPlainShape("a@b@c.d");
    assert "a@b@c.d"[1] == '@' && "a@b@c.d"[3] == '@';
    ValidEmailIffPlainShape("@b.c");
    ValidEmailIffPlainShape("a@bc");
  }
}
