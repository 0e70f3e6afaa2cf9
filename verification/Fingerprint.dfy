/** What two error reports must share to be counted as one error. */
module Fingerprint {
  import opened Wrappers
  import Text

  /** `s.split("\n")[0]`. */
  function FirstLine(s: string): string {
    if s == "" || s[0] == '\n' then "" else [s[0]] + FirstLine(s[1..])
  }

  function TraceLine(trace: Option<string>): string {
    if trace.None? then "" else FirstLine(Text.Strip(trace.value))
  }

  /** What is hashed. */
  function Payload(errorClass: string, message: string, trace: Option<string>): string {
    errorClass + "\n" + message + "\n" + TraceLine(trace)
  }

  /** `compute_fingerprint`, for any hash. */
  function Compute(hash: string -> string, errorClass: string, message: string, trace: Option<string>): string {
    hash(Payload(errorClass, message, trace))
  }

  datatype Parts = Parts(errorClass: string, message: string, line: string)

  function PartsOf(errorClass: string, message: string, trace: Option<string>): Parts {
    Parts(errorClass, message, TraceLine(trace))
  }

  // ----- Reading a payload back -----

  function LastLine(s: string): string {
    if s == "" || s[|s| - 1] == '\n' then "" else LastLine(s[..|s| - 1]) + [s[|s| - 1]]
  }

  lemma {:induction false} LastLineLength(s: string)
    ensures |LastLine(s)| <= |s|
  {
    if s != "" && s[|s| - 1] != '\n' {
      LastLineLength(s[..|s| - 1]);
    }
  }

  lemma {:induction false} FirstLineLength(s: string)
    ensures |FirstLine(s)| <= |s|
  {
    if s != "" && s[0] != '\n' {
      FirstLineLength(s[1..]);
    }
  }

  /** Cut at the first newline and at the last one. */
  function Decode(payload: string): Option<Parts> {
    FirstLineLength(payload);
    LastLineLength(payload);
    var c, l := FirstLine(payload), LastLine(payload);
    if |c| + |l| + 2 > |payload| then None
    else Some(Parts(c, payload[|c| + 1..|payload| - |l| - 1], l))
  }

  lemma {:induction false} FirstLineHasNoNewline(s: string)
    ensures '\n' !in FirstLine(s)
  {
    if s != "" && s[0] != '\n' {
      FirstLineHasNoNewline(s[1..]);
    }
  }

  lemma {:induction false} FirstLineOf(line: string, rest: string)
    requires '\n' !in line
    ensures FirstLine(line + "\n" + rest) == line
  {
    if line == "" {
    } else {
      assert line[0] != '\n' && (line + "\n" + rest)[1..] == line[1..] + "\n" + rest;
      FirstLineOf(line[1..], rest);
    }
  }

  lemma {:induction false} LastLineOf(rest: string, line: string)
    requires '\n' !in line
    ensures LastLine(rest + "\n" + line) == line
  {
    var s := rest + "\n" + line;
    if line == "" {
      assert s[|s| - 1] == '\n';
    } else {
      assert s[|s| - 1] == line[|line| - 1] != '\n';
      assert s[..|s| - 1] == rest + "\n" + line[..|line| - 1];
      LastLineOf(rest, line[..|line| - 1]);
    }
  }

  /** White space around a trace does not matter: the line is what stands before the first newline of the text
      between its outermost other characters. */
  lemma TraceLineOfText(left: string, line: string, rest: string, right: string)
    requires forall c :: c in left + right ==> Text.IsSpace(c)
    requires '\n' !in line && (rest == "" || rest[0] == '\n')
    requires line + rest == "" || (line != "" && !Text.IsSpace(line[0]) && !Text.IsSpace((line + rest)[|line + rest| - 1]))
    ensures TraceLine(Some(left + (line + rest) + right)) == line
  {
    if line + rest == "" {
      assert left + (line + rest) + right == left + right;
      Text.TrimAll(Text.IsSpace, left + right);
    } else {
      Text.TrimAround(Text.IsSpace, left, line + rest, right);
      if rest == "" {
        assert line + rest == line;
        FirstLineWhole(line);
      } else {
        assert line + rest == line + "\n" + rest[1..];
        FirstLineOf(line, rest[1..]);
      }
    }
  }

  lemma {:induction false} TraceSplits(trace: string) returns (left: string, text: string, right: string)
    ensures trace == left + text + right && forall c :: c in left + right ==> Text.IsSpace(c)
    ensures text == "" || (!Text.IsSpace(text[0]) && !Text.IsSpace(text[|text| - 1]))
    decreases |trace|
  {
    if trace == "" {
      left, text, right := "", "", "";
    } else if Text.IsSpace(trace[0]) {
      left, text, right := TraceSplits(trace[1..]);
      left := [trace[0]] + left;
      assert trace == [trace[0]] + trace[1..];
    } else if Text.IsSpace(trace[|trace| - 1]) {
      left, text, right := TraceSplits(trace[..|trace| - 1]);
      right := right + [trace[|trace| - 1]];
      assert trace == trace[..|trace| - 1] + [trace[|trace| - 1]];
    } else {
      left, text, right := "", trace, "";
    }
  }

  lemma {:induction false} FirstLineCuts(s: string)
    ensures FirstLine(s) <= s
    ensures |FirstLine(s)| < |s| ==> s[|FirstLine(s)|] == '\n'
  {
    if s != "" && s[0] != '\n' {
      FirstLineCuts(s[1..]);
      assert s == [s[0]] + s[1..];
    }
  }

  /** Every trace is of that form, so this says what its line is. */
  lemma TraceLineSplits(trace: string) returns (left: string, line: string, rest: string, right: string)
    ensures trace == left + (line + rest) + right && forall c :: c in left + right ==> Text.IsSpace(c)
    ensures '\n' !in line && (rest == "" || rest[0] == '\n')
    ensures line + rest == "" || (line != "" && !Text.IsSpace(line[0]) && !Text.IsSpace((line + rest)[|line + rest| - 1]))
    ensures TraceLine(Some(trace)) == line
  {
    var text;
    left, text, right := TraceSplits(trace);
    FirstLineCuts(text);
    FirstLineHasNoNewline(text);
    line, rest := FirstLine(text), text[|FirstLine(text)|..];
    assert line + rest == text;
    TraceLineOfText(left, line, rest, right);
  }

  lemma {:induction false} FirstLineWhole(line: string)
    requires '\n' !in line
    ensures FirstLine(line) == line
  {
    if line != "" {
      assert line[0] in line;
      FirstLineWhole(line[1..]);
    }
  }

  /** A payload says what was reported, whatever newlines the message contains. */
  lemma DecodesPayload(errorClass: string, message: string, trace: Option<string>)
    requires '\n' !in errorClass
    ensures Decode(Payload(errorClass, message, trace)) == Some(PartsOf(errorClass, message, trace))
  {
    var l := TraceLine(trace);
    if trace.Some? {
      FirstLineHasNoNewline(Text.Strip(trace.value));
    }
    var p := Payload(errorClass, message, trace);
    assert p == errorClass + "\n" + (message + "\n" + l);
    FirstLineOf(errorClass, message + "\n" + l);
    LastLineOf(errorClass + "\n" + message, l);
    assert p[|errorClass| + 1..|p| - |l| - 1] == message;
  }

  /** Two reports whose classes have no newline hash the same payload exactly when class, message and first
      line of the stripped trace agree. */
  lemma SamePayloadExactlyWhen(c1: string, m1: string, t1: Option<string>, c2: string, m2: string, t2: Option<string>)
    requires '\n' !in c1 && '\n' !in c2
    ensures Payload(c1, m1, t1) == Payload(c2, m2, t2) <==> PartsOf(c1, m1, t1) == PartsOf(c2, m2, t2)
  {
    DecodesPayload(c1, m1, t1);
    DecodesPayload(c2, m2, t2);
  }

  ghost predicate CollisionFree(hash: string -> string) {
    forall x, y :: hash(x) == hash(y) ==> x == y
  }

  lemma SameFingerprintExactlyWhen(hash: string -> string, c1: string, m1: string, t1: Option<string>,
                                   c2: string, m2: string, t2: Option<string>)
    requires CollisionFree(hash) && '\n' !in c1 && '\n' !in c2
    ensures Compute(hash, c1, m1, t1) == Compute(hash, c2, m2, t2) <==> PartsOf(c1, m1, t1) == PartsOf(c2, m2, t2)
  {
    SamePayloadExactlyWhen(c1, m1, t1, c2, m2, t2);
  }

  // ----- Without the premise on the class -----

  function Newlines(s: string): nat {
    if s == "" then 0 else (if s[0] == '\n' then 1 else 0) + Newlines(s[1..])
  }

  lemma {:induction false} NewlinesAdd(a: string, b: string)
    ensures Newlines(a + b) == Newlines(a) + Newlines(b)
  {
    if a == "" {
      assert a + b == b;
    } else {
      assert (a + b)[1..] == a[1..] + b;
      NewlinesAdd(a[1..], b);
    }
  }

  lemma {:induction false} NoNewlines(s: string)
    ensures Newlines(s) == 0 <==> '\n' !in s
  {
    if s != "" {
      NoNewlines(s[1..]);
      assert forall c :: c in s <==> c == s[0] || c in s[1..];
    }
  }

  lemma PayloadNewlines(c: string, m: string, t: Option<string>)
    ensures Newlines(Payload(c, m, t)) == Newlines(c) + Newlines(m) + 2
  {
    var l := TraceLine(t);
    if t.Some? {
      FirstLineHasNoNewline(Text.Strip(t.value));
    }
    NoNewlines(l);
    NewlinesAdd(c + "\n" + m + "\n", l);
    NewlinesAdd(c + "\n" + m, "\n");
    NewlinesAdd(c + "\n", m);
    NewlinesAdd(c, "\n");
  }

  /** Some other report has this payload as well. */
  ghost predicate Ambiguous(c: string, m: string, t: Option<string>) {
    exists c', m', t' :: Payload(c', m', t') == Payload(c, m, t) && PartsOf(c', m', t') != PartsOf(c, m, t)
  }

  lemma {:induction false} SplitAtNewline(s: string) returns (a: string, b: string)
    requires '\n' in s
    ensures s == a + "\n" + b
  {
    if s[0] == '\n' {
      a, b := "", s[1..];
    } else {
      a, b := SplitAtNewline(s[1..]);
      a := [s[0]] + a;
    }
  }

  /** Without the premise the fingerprint can mistake one report for another exactly when the class or the
      message contains a newline. */
  lemma AmbiguousExactlyWhen(c: string, m: string, t: Option<string>)
    ensures Ambiguous(c, m, t) <==> '\n' in c || '\n' in m
  {
    if '\n' in c {
      var a, b := SplitAtNewline(c);
      assert a + "\n" + (b + "\n" + m) == c + "\n" + m;
      assert Payload(a, b + "\n" + m, t) == Payload(c, m, t);
      assert PartsOf(a, b + "\n" + m, t) != PartsOf(c, m, t);
    } else if '\n' in m {
      var a, b := SplitAtNewline(m);
      assert (c + "\n" + a) + "\n" + b == c + "\n" + m;
      assert Payload(c + "\n" + a, b, t) == Payload(c, m, t);
      assert PartsOf(c + "\n" + a, b, t) != PartsOf(c, m, t);
    } else {
      forall c', m', t' | Payload(c', m', t') == Payload(c, m, t)
        ensures PartsOf(c', m', t') == PartsOf(c, m, t)
      {
        PayloadNewlines(c, m, t);
        PayloadNewlines(c', m', t');
        NoNewlines(c);
        NoNewlines(m);
        NoNewlines(c');
        SamePayloadExactlyWhen(c, m, t, c', m', t');
      }
    }
  }
}
