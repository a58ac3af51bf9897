/**
  The part of zod the two credential forms use: a `z.string()` chain of `min`, `max`,
  `regex` and `email` checks, which reports the message of every failing check in chain
  order; an issue tagged with the path it belongs to; and the form resolver, which shows
  for each path the message of the first issue on it.

  The regular expressions in the forms are of two shapes: one character class anywhere
  (`/[A-Z]/`), and a whole string made of a leading class and a following class
  (`/^[a-zA-Z][a-zA-Z0-9-_]*$/`). The email check is an abstract predicate.
 */
module Zod {
  import opened Wrappers
  import Text

  /** A regular expression the forms use. */
  datatype Pattern =
    | Somewhere(cls: char -> bool)
    | Whole(first: char -> bool, rest: char -> bool)

  /** One link of a `z.string()` chain with its message. Lengths are JavaScript's
      `length`, in UTF-16 code units. */
  datatype Check =
    | Min(n: nat, message: string)
    | Max(n: nat, message: string)
    | Regex(pattern: Pattern, message: string)
    | Satisfies(p: string -> bool, message: string)

  /** Every character of `s` is in the class `p`, checked left to right. */
  function AllChars(s: string, p: char -> bool): bool {
    |s| == 0 || (p(s[0]) && AllChars(s[1..], p))
  }

  lemma {:induction false} AllCharsIff(s: string, p: char -> bool)
    ensures AllChars(s, p) <==> forall i :: 0 <= i < |s| ==> p(s[i])
  {
    if |s| > 0 {
      AllCharsIff(s[1..], p);
      assert forall i :: 1 <= i < |s| ==> s[i] == s[1..][i - 1];
    }
  }

  /** `RegExp.prototype.test`. */
  predicate Test(pattern: Pattern, s: string) {
    match pattern
    case Somewhere(cls) => Text.Contains(s, cls)
    case Whole(first, rest) => |s| > 0 && first(s[0]) && AllChars(s[1..], rest)
  }

  predicate Passes(s: string, c: Check) {
    match c
    case Min(n, _) => Text.Utf16Length(s) >= n
    case Max(n, _) => Text.Utf16Length(s) <= n
    case Regex(pattern, _) => Test(pattern, s)
    case Satisfies(p, _) => p(s)
  }

  /** The messages of the failing checks, in chain order (zod runs every check of a
      string chain, not only up to the first failure). */
  function Failures(s: string, checks: seq<Check>): (r: seq<string>)
    ensures |r| <= |checks|
  {
    if |checks| == 0 then []
    else (if Passes(s, checks[0]) then [] else [checks[0].message]) + Failures(s, checks[1..])
  }

  /** No message exactly when every check passes. */
  lemma {:induction false} FailuresEmptyIff(s: string, checks: seq<Check>)
    ensures Failures(s, checks) == [] <==> forall i :: 0 <= i < |checks| ==> Passes(s, checks[i])
  {
    if |checks| > 0 {
      FailuresEmptyIff(s, checks[1..]);
      assert forall i :: 1 <= i < |checks| ==> checks[i] == checks[1..][i - 1];
    }
  }

  /** The first message is that of the first failing check. */
  lemma {:induction false} FailuresFirst(s: string, checks: seq<Check>)
    requires Failures(s, checks) != []
    ensures exists k :: 0 <= k < |checks| && !Passes(s, checks[k]) && Failures(s, checks)[0] == checks[k].message
                        && forall j :: 0 <= j < k ==> Passes(s, checks[j])
  {
    if Passes(s, checks[0]) {
      FailuresFirst(s, checks[1..]);
      var k :| 0 <= k < |checks[1..]| && !Passes(s, checks[1..][k])
               && Failures(s, checks[1..])[0] == checks[1..][k].message
               && forall j :: 0 <= j < k ==> Passes(s, checks[1..][j]);
      assert forall j :: 0 <= j < k + 1 ==> Passes(s, checks[j]) by {
        forall j | 0 <= j < k + 1 ensures Passes(s, checks[j]) {
          if j > 0 { assert checks[j] == checks[1..][j - 1]; }
        }
      }
      assert !Passes(s, checks[k + 1]);
    }
  }

  /** Two chains whose checks agree one by one, on message and on verdict for `s`,
      report the same messages for `s`. */
  lemma {:induction false} FailuresAgree(s: string, a: seq<Check>, b: seq<Check>)
    requires |a| == |b|
    requires forall i :: 0 <= i < |a| ==> a[i].message == b[i].message && (Passes(s, a[i]) <==> Passes(s, b[i]))
    ensures Failures(s, a) == Failures(s, b)
  {
    if |a| > 0 {
      assert forall i :: 1 <= i < |a| ==> a[i] == a[1..][i - 1] && b[i] == b[1..][i - 1];
      FailuresAgree(s, a[1..], b[1..]);
    }
  }

  /** An issue: the path of the field it is reported on, and its message. */
  datatype Issue = Issue(path: string, message: string)

  /** The issues of one field, tagged with its path. */
  function OnPath(path: string, messages: seq<string>): (r: seq<Issue>)
    ensures |r| == |messages|
    ensures forall i :: 0 <= i < |r| ==> r[i] == Issue(path, messages[i])
  {
    seq(|messages|, i requires 0 <= i < |messages| => Issue(path, messages[i]))
  }

  /** The message the form shows under the field at `path`: the first issue on it. */
  function Shown(issues: seq<Issue>, path: string): (r: Option<string>)
    ensures r.None? <==> forall i :: 0 <= i < |issues| ==> issues[i].path != path
  {
    if |issues| == 0 then None
    else if issues[0].path == path then Some(issues[0].message)
    else
      assert forall i :: 1 <= i < |issues| ==> issues[i] == issues[1..][i - 1];
      Shown(issues[1..], path)
  }

  /** The first issue on a path in two runs of issues is the first run's, if it has one. */
  lemma {:induction false} ShownAppend(a: seq<Issue>, b: seq<Issue>, path: string)
    ensures Shown(a + b, path) == if Shown(a, path).Some? then Shown(a, path) else Shown(b, path)
  {
    if |a| > 0 {
      assert (a + b)[1..] == a[1..] + b;
      ShownAppend(a[1..], b, path);
    } else {
      assert a + b == b;
    }
  }

  /** On its own path, a field's issues show its first message; on any other, nothing. */
  lemma ShownOnPath(field: string, messages: seq<string>, path: string)
    ensures Shown(OnPath(field, messages), path) ==
      if field == path && messages != [] then Some(messages[0]) else None
  {
  }
}
