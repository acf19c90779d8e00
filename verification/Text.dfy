/** The text operations the bar's readers use, on ASCII text. */
module Text {
  import opened Wrappers

  function StripReturn(line: string): string {
    if line != "" && line[|line| - 1] == '\r' then line[..|line| - 1] else line
  }

  /** Where the first line ends: at its newline, or at the end of the text. */
  function LineEnd(s: string): (n: nat)
    ensures n <= |s| && (n < |s| ==> s[n] == '\n') && '\n' !in s[..n]
    ensures '\n' in s ==> n < |s|
  {
    if s == "" || s[0] == '\n' then 0
    else
      assert forall n :: 0 <= n <= |s| - 1 ==> s[..n + 1] == [s[0]] + s[1..][..n];
      1 + LineEnd(s[1..])
  }

  /** The lines of a text: a newline ends a line, and a return before it goes with it. */
  function Lines(s: string): seq<string>
    decreases |s|
  {
    if s == "" then []
    else
      var n := LineEnd(s);
      if n == |s| then [s] else [StripReturn(s[..n])] + Lines(s[n + 1..])
  }

  predicate EndsLine(s: string) { s == "" || s[|s| - 1] == '\n' }

  lemma {:induction false} LinesOfWholeLines(a: string, b: string)
    requires EndsLine(a)
    ensures Lines(a + b) == Lines(a) + Lines(b)
    decreases |a|
  {
    hide StripReturn;
    if a == "" {
      assert a + b == b;
    } else {
      var n := LineEnd(a);
      assert a[|a| - 1] in a && n < |a|;
      FirstLineStays(a, b, n);
      assert (a + b)[..n] == a[..n] && (a + b)[n + 1..] == a[n + 1..] + b;
      LinesOfWholeLines(a[n + 1..], b);
    }
  }

  lemma {:induction false} FirstLineStays(a: string, b: string, n: nat)
    requires n < |a| && n == LineEnd(a)
    ensures LineEnd(a + b) == n
  {
    if a[0] != '\n' {
      assert (a + b)[1..] == a[1..] + b;
      FirstLineStays(a[1..], b, n - 1);
    }
  }

  lemma {:induction false} TheFirstLineEnds(l: string, rest: string)
    requires '\n' !in l && (rest == "" || rest[0] == '\n')
    ensures LineEnd(l + rest) == |l|
  {
    if l == "" {
      assert l + rest == rest;
    } else {
      assert (l + rest)[1..] == l[1..] + rest && (l + rest)[0] in l;
      TheFirstLineEnds(l[1..], rest);
    }
  }

  lemma ALineIsTaken(l: string, rest: string)
    requires '\n' !in l
    ensures Lines(l + (['\n'] + rest)) == [StripReturn(l)] + Lines(rest)
  {
    hide StripReturn;
    var s := l + (['\n'] + rest);
    TheFirstLineEnds(l, ['\n'] + rest);
    assert s[..|l|] == l && s[|l| + 1..] == rest;
  }

  /** **What a line is**: up to a newline, without a return before it; what no newline ends is a line as it is. */
  lemma OneLineOff(l: string, rest: string)
    requires '\n' !in l
    ensures l == "" || l[|l| - 1] != '\r' ==> Lines(l + (['\n'] + rest)) == [l] + Lines(rest)
    ensures Lines((l + ['\r']) + (['\n'] + rest)) == [l] + Lines(rest)
    ensures Lines(l) == if l == "" then [] else [l]
  {
    ALineIsTaken(l, rest);
    ALineIsTaken(l + ['\r'], rest);
    TheFirstLineEnds(l, "");
    assert l + "" == l;
  }

  predicate IsSpace(c: char) {
    c == ' ' || c == '\t' || c == '\n' || c == '\r' || c == '\U{0b}' || c == '\U{0c}'
  }

  function TrimStart(s: string): string {
    if s != "" && IsSpace(s[0]) then TrimStart(s[1..]) else s
  }

  function TrimEnd(s: string): string {
    if s != "" && IsSpace(s[|s| - 1]) then TrimEnd(s[..|s| - 1]) else s
  }

  function Trim(s: string): string { TrimEnd(TrimStart(s)) }

  ghost predicate AllSpace(s: string) {
    forall c :: c in s ==> c in {' ', '\t', '\n', '\r', '\U{0b}', '\U{0c}'}
  }

  lemma {:induction false} TrimmedAtTheStart(s: string) returns (n: nat)
    ensures n <= |s| && AllSpace(s[..n]) && TrimStart(s) == s[n..]
    ensures n < |s| ==> !AllSpace([s[n]])
  {
    n := 0;
    if s != "" && IsSpace(s[0]) {
      n := TrimmedAtTheStart(s[1..]);
      assert s[..n + 1] == [s[0]] + s[1..][..n] && s[1..][n..] == s[n + 1..];
      n := n + 1;
    } else if s != "" {
      assert s[0] in [s[0]];
    }
  }

  lemma {:induction false} TrimmedAtTheEnd(s: string) returns (n: nat)
    ensures n <= |s| && AllSpace(s[n..]) && TrimEnd(s) == s[..n]
    ensures n > 0 ==> !AllSpace([s[n - 1]])
  {
    n := |s|;
    if s != "" && IsSpace(s[|s| - 1]) {
      var init := s[..|s| - 1];
      n := TrimmedAtTheEnd(init);
      assert s[n..] == init[n..] + [s[|s| - 1]] && init[..n] == s[..n];
    } else if s != "" {
      assert s[|s| - 1] in [s[|s| - 1]];
    }
  }

  /** **What is trimmed**: the white space at both ends and nothing more. */
  lemma TrimTakesTheSpace(s: string) returns (n: nat, k: nat)
    ensures n <= k <= |s| && Trim(s) == s[n..k] && AllSpace(s[..n]) && AllSpace(s[k..])
    ensures n < k ==> !AllSpace([s[n]]) && !AllSpace([s[k - 1]])
  {
    hide AllSpace;
    n := TrimmedAtTheStart(s);
    var end := TrimmedAtTheEnd(s[n..]);
    k := n + end;
    assert s[n..][end..] == s[k..] && s[n..][..end] == s[n..k];
  }

  predicate Occurs(s: string, part: string, i: nat) {
    i + |part| <= |s| && s[i..i + |part|] == part
  }

  /** Split at the last occurrence. */
  function SplitLast(s: string, part: string): (r: Option<(string, string)>)
    ensures r.None? ==> forall i: nat :: !Occurs(s, part, i)
    ensures r.Some? ==> s == r.value.0 + part + r.value.1 && forall i: nat :: i > |r.value.0| ==> !Occurs(s, part, i)
  {
    if |s| < |part| then None else SplitBefore(s, part, |s| - |part|)
  }

  function SplitBefore(s: string, part: string, last: nat): (r: Option<(string, string)>)
    requires last + |part| <= |s|
    ensures r.None? ==> forall i: nat :: i <= last ==> !Occurs(s, part, i)
    ensures r.Some? ==> s == r.value.0 + part + r.value.1 && |r.value.0| <= last && forall i: nat :: |r.value.0| < i <= last ==> !Occurs(s, part, i)
  {
    if Occurs(s, part, last) then
      assert s == s[..last] + s[last..last + |part|] + s[last + |part|..];
      Some((s[..last], s[last + |part|..]))
    else if last == 0 then None
    else SplitBefore(s, part, last - 1)
  }

  function StripSuffix(s: string, end: char): Option<string> {
    if s != "" && s[|s| - 1] == end then Some(s[..|s| - 1]) else None
  }

  function StripPrefix(s: string, start: string): Option<string> {
    if start <= s then Some(s[|start|..]) else None
  }
}
