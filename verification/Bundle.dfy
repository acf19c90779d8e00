/**
 The prebuilt test bundle: the listing a lane's binaries came from, printed from
 the manifest, and the reader that takes such a listing apart.
 */
module Bundle {
  import opened Wrappers
  import opened Text

  datatype Exe = Exe(lane: string, describes: string, path: string, dir: string)

  /** What a line says, if it is an executable's. */
  function Executable(line: string): Option<(string, string)> {
    match StripPrefix(Trim(line), "Executable ")
    case None => None
    case Some(rest) =>
      match SplitLast(rest, " (")
      case None => None
      case Some((describes, path)) =>
        match StripSuffix(path, ')')
        case None => None
        case Some(named) => Some((describes, named))
  }

  function ExecutablesOf(lines: seq<string>): seq<(string, string)> {
    if lines == [] then []
    else (match Executable(lines[0]) case None => [] case Some(pair) => [pair]) + ExecutablesOf(lines[1..])
  }

  function Executables(listing: string): seq<(string, string)> { ExecutablesOf(Lines(listing)) }

  function LineOf(exe: Exe): string { "  Executable " + exe.describes + " (" + exe.path + ")" }

  function Listing(exes: seq<Exe>, lane: string): string {
    if exes == [] then ""
    else (if exes[0].lane == lane then LineOf(exes[0]) + "\n" else "") + Listing(exes[1..], lane)
  }

  /** What the lane's executables are, in the manifest's order. */
  function PairsOf(exes: seq<Exe>, lane: string): seq<(string, string)> {
    if exes == [] then []
    else (if exes[0].lane == lane then [(exes[0].describes, exes[0].path)] else []) + PairsOf(exes[1..], lane)
  }

  predicate OneLine(exe: Exe) { '\n' !in exe.describes && '\n' !in exe.path }

  /** A path the reader cannot tell from the words before it. */
  predicate Ambiguous(path: string) { exists i | 0 <= i < |path| :: Occurs(path, " (", i) }

  lemma TrimmedLine(exe: Exe)
    ensures Trim(LineOf(exe)) == "Executable " + exe.describes + " (" + exe.path + ")"
  {
    var line := LineOf(exe);
    var text := "Executable " + exe.describes + " (" + exe.path + ")";
    assert line == [' '] + ([' '] + text);
    assert TrimStart(line) == TrimStart([' '] + text) by {
      assert line[1..] == [' '] + text;
    }
    assert ([' '] + text)[1..] == text;
    assert text[0] == 'E' && TrimStart(text) == text;
    assert text[|text| - 1] == ')';
  }

  /** The last `" ("` of a printed line is the printed one, or one inside the path. */
  lemma WhereThePathStarts(describes: string, path: string, i: nat)
    requires i > |describes| && Occurs(describes + " (" + path + ")", " (", i)
    ensures i >= |describes| + 2 && Occurs(path, " (", i - |describes| - 2)
  {
    var rest := describes + " (" + path + ")";
    assert rest[i] == ' ' && rest[i + 1] == '(' by {
      assert rest[i..i + 2][0] == ' ' && rest[i..i + 2][1] == '(';
    }
    assert rest[|describes| + 1] == '(';
    var at := i - |describes| - 2;
    assert at + 1 < |path|;
    assert path[at] == ' ' && path[at + 1] == '(';
    assert path[at..at + 2] == " (";
  }

  lemma ThePathStartsLater(describes: string, path: string, i: nat)
    requires Occurs(path, " (", i)
    ensures Occurs(describes + " (" + path + ")", " (", |describes| + 2 + i)
  {
    var rest, at := describes + " (" + path + ")", |describes| + 2 + i;
    assert path[i] == ' ' && path[i + 1] == '(' by {
      assert path[i..i + 2][0] == ' ' && path[i..i + 2][1] == '(';
    }
    assert rest[at] == path[i] && rest[at + 1] == path[i + 1];
    assert rest[at..at + 2] == " (";
  }

  /** Splitting at the last `" ("` gives the printed path exactly when none is inside it. */
  lemma ThePathIsSplitOff(describes: string, path: string)
    ensures
      var split := SplitLast(describes + " (" + path + ")", " (");
      && split.Some? && split.value.1 != "" && split.value.1[|split.value.1| - 1] == ')'
      && (!Ambiguous(path) ==> split == Some((describes, path + ")")))
      && (Ambiguous(path) ==> |split.value.0| > |describes|)
  {
    var rest, at := describes + " (" + path + ")", |describes|;
    var split := SplitLast(rest, " (");
    assert Occurs(rest, " (", at) by {
      assert rest[at..at + 2] == " (";
    }
    hide SplitLast;
    var (before, after) := split.value;
    assert |before| >= at;
    if |before| > at {
      assert Occurs(rest, " (", |before|) by {
        assert rest[|before|..|before| + 2] == " (";
      }
      WhereThePathStarts(describes, path, |before|);
    } else {
      TheSplitIsTheText(describes, path, before, after);
    }
    if i: nat :| i < |path| && Occurs(path, " (", i) {
      ThePathStartsLater(describes, path, i);
    }
  }

  lemma TheSplitIsTheText(describes: string, path: string, before: string, after: string)
    requires describes + " (" + path + ")" == before + " (" + after && |before| == |describes|
    ensures before == describes && after == path + ")"
  {
    var rest := describes + " (" + path + ")";
    assert rest[..|describes|] == describes && rest[..|before|] == before;
    assert rest[|describes| + 2..] == path + ")" && rest[|before| + 2..] == after;
  }

  /** **One line reads back as what was printed, unless its path is ambiguous.** */
  lemma AnExecutableReadsBack(exe: Exe)
    ensures Executable(LineOf(exe)).Some?
    ensures Executable(LineOf(exe)) == Some((exe.describes, exe.path)) <==> !Ambiguous(exe.path)
  {
    hide SplitLast, Ambiguous, Trim;
    TrimmedLine(exe);
    var prefix, rest := "Executable ", exe.describes + " (" + exe.path + ")";
    assert Trim(LineOf(exe)) == prefix + rest;
    assert prefix <= prefix + rest && (prefix + rest)[|prefix|..] == rest;
    ThePathIsSplitOff(exe.describes, exe.path);
    assert (exe.path + ")")[..|exe.path|] == exe.path;
  }

  lemma APrintedLineIsOneLine(exe: Exe, rest: string)
    requires OneLine(exe)
    ensures Lines(LineOf(exe) + "\n" + rest) == [LineOf(exe)] + Lines(rest)
  {
    var line := LineOf(exe);
    assert '\n' !in line;
    LineEndAt(line, "\n" + rest);
    assert line + "\n" + rest == line + ("\n" + rest);
    var whole := line + ("\n" + rest);
    assert whole[..|line|] == line && whole[|line| + 1..] == rest;
    assert line[|line| - 1] == ')';
  }

  lemma {:induction false} LineEndAt(line: string, rest: string)
    requires '\n' !in line && rest != "" && rest[0] == '\n'
    ensures LineEnd(line + rest) == |line|
  {
    if line != "" {
      assert (line + rest)[1..] == line[1..] + rest;
      LineEndAt(line[1..], rest);
    }
  }

  /**
   **Printing and reading back.** For texts without newlines, the reader gives
   back the lane's descriptions and paths in order exactly when no path of the
   lane holds a space before a parenthesis.
   */
  lemma {:induction false} TheListingReadsBack(exes: seq<Exe>, lane: string)
    requires forall exe :: exe in exes && exe.lane == lane ==> OneLine(exe)
    ensures |Executables(Listing(exes, lane))| == |PairsOf(exes, lane)|
    ensures
      Executables(Listing(exes, lane)) == PairsOf(exes, lane)
      <==> (forall exe :: exe in exes && exe.lane == lane ==> !Ambiguous(exe.path))
  {
    hide Executable, Ambiguous, LineOf, OneLine;
    if exes != [] {
      var exe, rest := exes[0], exes[1..];
      assert exes == [exe] + rest;
      TheListingReadsBack(rest, lane);
      if exe.lane == lane {
        AnExecutableReadsBack(exe);
        APrintedLineIsOneLine(exe, Listing(rest, lane));
        var lines := Lines(Listing(rest, lane));
        assert ([LineOf(exe)] + lines)[1..] == lines;
        var read, pair := Executable(LineOf(exe)).value, (exe.describes, exe.path);
        assert Executables(Listing(exes, lane)) == [read] + Executables(Listing(rest, lane));
        assert PairsOf(exes, lane) == [pair] + PairsOf(rest, lane);
        HeadAndTail(read, Executables(Listing(rest, lane)), pair, PairsOf(rest, lane));
      } else {
        assert "" + Listing(rest, lane) == Listing(rest, lane);
        assert [] + PairsOf(rest, lane) == PairsOf(rest, lane);
      }
    }
  }

  /** **The lane's pairs are of its own executables**, in the order the manifest lists them. */
  lemma {:induction false} PairsAreOfTheLane(exes: seq<Exe>, more: seq<Exe>, lane: string)
    ensures forall pair :: pair in PairsOf(exes, lane) <==>
      exists exe :: exe in exes && exe.lane == lane && pair == (exe.describes, exe.path)
    ensures PairsOf(exes + more, lane) == PairsOf(exes, lane) + PairsOf(more, lane)
  {
    if exes == [] {
      assert exes + more == more;
    } else {
      assert exes == [exes[0]] + exes[1..] && (exes + more)[1..] == exes[1..] + more;
      PairsAreOfTheLane(exes[1..], more, lane);
    }
  }

  lemma HeadAndTail<T>(a: T, s: seq<T>, b: T, t: seq<T>)
    ensures [a] + s == [b] + t <==> a == b && s == t
  {
    if [a] + s == [b] + t {
      assert ([a] + s)[0] == ([b] + t)[0] && ([a] + s)[1..] == ([b] + t)[1..];
    }
  }
}
