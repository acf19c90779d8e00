/**
 How a test run that hangs is caught: start lines are read off its output, each is
 matched with a child process, and the clock set from there decides when to kill.
 */
module Deadline {
  import opened Wrappers
  import opened Text

  // ---- Reading start lines as the file grows ----

  predicate IsStart(line: string) { "Running " <= line || "Doc-tests " <= line }

  /** The start lines among these lines, trimmed. */
  function StartsIn(lines: seq<string>): seq<string> {
    if lines == [] then []
    else if IsStart(Trim(lines[0])) then [Trim(lines[0])] + StartsIn(lines[1..])
    else StartsIn(lines[1..])
  }

  lemma {:induction false} StartsInBoth(a: seq<string>, b: seq<string>)
    ensures StartsIn(a + b) == StartsIn(a) + StartsIn(b)
  {
    hide Trim, IsStart;
    if a == [] {
      assert a + b == b;
    } else {
      assert (a + b)[1..] == a[1..] + b;
      StartsInBoth(a[1..], b);
    }
  }

  /** The part of a text that is whole lines, and the rest. */
  function WholeLines(s: string): (n: nat)
    ensures n <= |s| && EndsLine(s[..n]) && '\n' !in s[n..]
  {
    if s == "" then 0
    else if s[|s| - 1] == '\n' then |s|
    else
      assert s == s[..|s| - 1] + [s[|s| - 1]];
      assert forall n :: 0 <= n <= |s| - 1 ==> s[..|s| - 1][..n] == s[..n] && s[n..] == s[..|s| - 1][n..] + [s[|s| - 1]];
      WholeLines(s[..|s| - 1])
  }

  /** What every complete line of a text says has started. */
  function StartsOf(text: string): seq<string> { StartsIn(Lines(text[..WholeLines(text)])) }

  lemma {:induction false} WholeLinesAfter(a: string, b: string)
    requires EndsLine(a)
    ensures WholeLines(a + b) == |a| + WholeLines(b)
  {
    if b == "" {
      assert a + b == a;
    } else if b[|b| - 1] != '\n' {
      assert (a + b)[..|a + b| - 1] == a + b[..|b| - 1];
      WholeLinesAfter(a, b[..|b| - 1]);
    }
  }

  /** Reading the whole lines a text ends with after some were read already. */
  lemma StartsOfMore(whole: string, more: string)
    requires EndsLine(whole)
    ensures StartsOf(whole + more) == StartsOf(whole) + StartsOf(more)
  {
    hide Lines, StartsIn;
    WholeLinesAfter(whole, more);
    var n := WholeLines(more);
    assert WholeLines(whole) == |whole| && whole[..|whole|] == whole;
    hide WholeLines;
    assert (whole + more)[..|whole| + n] == whole + more[..n];
    LinesOfWholeLines(whole, more[..n]);
    StartsInBoth(Lines(whole), Lines(more[..n]));
  }

  /** The line a text has begun and not ended. */
  function Unfinished(text: string): string { text[WholeLines(text)..] }

  lemma {:induction false} AnUnfinishedLineHoldsNoStart(s: string)
    requires '\n' !in s
    ensures WholeLines(s) == 0 && StartsOf(s) == []
  {
    if s != "" {
      assert s[|s| - 1] in s;
      assert forall c :: c in s[..|s| - 1] ==> c in s;
      AnUnfinishedLineHoldsNoStart(s[..|s| - 1]);
    }
  }

  /** Reading on: only the unfinished line and the new bytes have to be looked at. */
  lemma ReadingOn(read: string, bytes: string)
    ensures StartsOf(read + bytes) == StartsOf(read) + StartsOf(Unfinished(read) + bytes)
    ensures Unfinished(read + bytes) == Unfinished(Unfinished(read) + bytes)
  {
    hide StartsOf, WholeLines;
    var n := WholeLines(read);
    var whole, rest := read[..n], Unfinished(read);
    var more := rest + bytes;
    assert read == whole + rest && read + bytes == whole + more;
    StartsOfMore(whole, rest);
    StartsOfMore(whole, more);
    AnUnfinishedLineHoldsNoStart(rest);
    WholeLinesAfter(whole, more);
    assert (whole + more)[|whole| + WholeLines(more)..] == more[WholeLines(more)..];
    assert StartsOf(read) + StartsOf(more) == StartsOf(whole) + StartsOf(more);
  }

  lemma {:induction false} StartsAmong(lines: seq<string>)
    ensures forall start :: start in StartsIn(lines) <==>
      exists line :: line in lines && start == Trim(line) && ("Running " <= start || "Doc-tests " <= start)
  {
    hide Trim;
    if lines != [] {
      assert lines == [lines[0]] + lines[1..];
      StartsAmong(lines[1..]);
    }
  }

  /** **What a start line is**: a complete line that says, once trimmed, what is running or whose examples are. */
  lemma WhatAStartIs(text: string, start: string)
    ensures start in StartsOf(text) <==>
      exists line :: line in Lines(text[..WholeLines(text)]) && start == Trim(line) && ("Running " <= start || "Doc-tests " <= start)
  {
    StartsAmong(Lines(text[..WholeLines(text)]));
  }

  class Watch {
    var position: nat
    var partial: string
    /** What has been read, and the start lines given so far. */
    ghost var read: string
    ghost var given: seq<string>

    ghost predicate Valid()
      reads this
    {
      position == |read| && partial == Unfinished(read) && given == StartsOf(read)
    }

    constructor ()
      ensures Valid() && position == 0 && given == []
    {
      position, partial, read, given := 0, "", "", [];
    }

    /**
     What became whole lines since the previous read. **However the file grew in
     between, the lines given so far are those of all its complete lines.**
     */
    method Starts(file: string) returns (lines: seq<string>)
      requires Valid() && read <= file
      modifies this
      ensures Valid() && read == file && given == old(given) + lines
      ensures given == StartsOf(file)
    {
      hide Lines, StartsIn;
      var bytes := file[position..];
      assert file == read + bytes;
      ReadingOn(read, bytes);
      position := position + |bytes|;
      partial := partial + bytes;
      var end := WholeLines(partial);
      lines := StartsIn(Lines(partial[..end]));
      partial := partial[end..];
      read := file;
      given := given + lines;
    }
  }

  // ---- Crediting a child with a start ----

  /** What tells two processes apart: number and starting time together. */
  type Identity = (nat, nat)

  datatype Member = Member(identity: Identity, exe: Option<string>, name: string)

  /** What a line claims to run: the text inside the parenthesis that ends it. */
  function ClaimedPath(line: string): Option<string> {
    match StripSuffix(TrimEnd(line), ')')
    case None => None
    case Some(head) =>
      match SplitLast(head, "(")
      case None => None
      case Some((_, path)) => Some(path)
  }

  /** This child runs what the line names; `files` resolves the paths that exist. */
  predicate Runs(member: Member, line: string, files: map<string, string>) {
    match ClaimedPath(line)
    case Some(named) => named in files && member.exe == Some(files[named])
    case None => "Doc-tests " <= line && member.name == "rustdoc"
  }

  /** **Whom a line names**: the child that runs the file in the parenthesis that ends it. */
  lemma WhatAStartLineNames(words: string, path: string, member: Member, files: map<string, string>)
    requires '(' !in path
    ensures Runs(member, words + "(" + path + ")", files) <==> path in files && member.exe == Some(files[path])
  {
    var line := words + "(" + path + ")";
    assert TrimEnd(line) == line && line[..|line| - 1] == words + "(" + path;
    var head := words + "(" + path;
    assert Occurs(head, "(", |words|);
    var split := SplitLast(head, "(");
    assert split.Some?;
    var at := |split.value.0|;
    assert head[at] == '(' && at >= |words|;
    assert forall k :: |words| < k < |head| ==> head[k] == path[k - |words| - 1];
    assert at == |words| && split.value.1 == path;
  }

  /** **A line that no parenthesis ends names a run of examples**, or nobody. */
  lemma WhatAPlainLineNames(line: string, member: Member, files: map<string, string>)
    requires TrimEnd(line) == "" || TrimEnd(line)[|TrimEnd(line)| - 1] != ')' || '(' !in TrimEnd(line)
    ensures Runs(member, line, files) <==> "Doc-tests " <= line && member.name == "rustdoc"
  {
    var head := StripSuffix(TrimEnd(line), ')');
    if head.Some? {
      ASplitHoldsIts(head.value);
      assert forall c :: c in head.value ==> c in TrimEnd(line);
    }
  }

  lemma ASplitHoldsIts(s: string)
    ensures SplitLast(s, "(").Some? ==> '(' in s
  {
    var split := SplitLast(s, "(");
    if split.Some? {
      assert s[|split.value.0|] == '(';
    }
  }

  /** The first child the line fits that no earlier line was credited with. */
  method Started(line: string, proc: bool, files: map<string, string>, children: seq<Member>, credited: set<Identity>)
    returns (found: Option<Option<Member>>)
    ensures !proc ==> found == Some(None)
    ensures proc && found.Some? ==> found.value.Some? && found.value.value in children
                                    && Runs(found.value.value, line, files) && found.value.value.identity !in credited
    ensures proc && found.None? ==> forall member :: member in children && Runs(member, line, files) ==> member.identity in credited
  {
    if !proc {
      return Some(None);
    }
    for i := 0 to |children|
      invariant forall member :: member in children[..i] && Runs(member, line, files) ==> member.identity in credited
    {
      if children[i].identity !in credited && Runs(children[i], line, files) {
        return Some(Some(children[i]));
      }
    }
    assert children[..|children|] == children;
    return None;
  }

  // ---- The clock ----

  const WINDOW: nat := 5000
  const MOST_CLAIMS: nat := 64

  datatype Clock = FromSpawn | PerExecutable

  datatype Claim = Claim(line: string, seen: nat)

  /** Each time the clock was set, and by what. */
  datatype Setting =
    | BySpawn(at: nat)
    | ByChild(at: nat, line: string, member: Member)
    | ByWord(at: nat, line: string)
    | ByFallback(at: nat, line: string)

  /**
   What one turn of the loop finds. `now` is when the output was read, `times` when each
   claim was judged, `armed` when the first start line's wait was measured, and `late`
   when the clock was; `views` are the children each claim is judged against.
   */
  datatype Poll = Poll(
    now: nat, times: seq<nat>, armed: nat, late: nat,
    exited: Option<bool>, file: string, views: seq<seq<Member>>, files: map<string, string>, stop: bool)

  function JudgedAt(poll: Poll, i: nat): nat { if i < |poll.times| then poll.times[i] else poll.armed }

  /** A turn reads the clock several times, and it only goes on. */
  ghost predicate Clocks(poll: Poll) {
    && poll.now <= poll.armed <= poll.late
    && forall i :: 0 <= i < |poll.times| ==> poll.now <= poll.times[i] <= poll.armed
  }

  datatype Outcome = Exited(well: bool) | Stopped | TimedOut(running: string) | Running

  datatype Timer = Timer(since: Option<nat>, running: string, claims: seq<Claim>, open: Option<Claim>, credited: set<Identity>)

  function ViewAt(poll: Poll, i: nat): seq<Member> { if i < |poll.views| then poll.views[i] else [] }

  /** What the settings so far leave the clock at. */
  ghost function Since(settings: seq<Setting>): Option<nat> {
    if settings == [] then None else Some(settings[|settings| - 1].at)
  }

  /** The start line of the last setting; a spawn has none. */
  ghost function LineOf(settings: seq<Setting>): string {
    if settings == [] || settings[|settings| - 1].BySpawn? then "" else settings[|settings| - 1].line
  }

  /** **Each child sets the clock once**, and nothing else does but the first setting. */
  ghost predicate Credits(settings: seq<Setting>, credited: set<Identity>) {
    && (forall i :: 0 < i < |settings| ==> settings[i].ByChild?)
    && (forall i :: 0 <= i < |settings| && settings[i].ByChild? ==> settings[i].member.identity in credited)
    && (forall i, j :: 0 <= i < j < |settings| && settings[i].ByChild? && settings[j].ByChild?
          ==> settings[i].member.identity != settings[j].member.identity)
    && |settings| == |credited| + if settings != [] && !settings[0].ByChild? then 1 else 0
  }

  ghost predicate Fits(timer: Timer, settings: seq<Setting>, proc: bool) {
    && timer.since == Since(settings) && timer.running == LineOf(settings)
    && (proc ==> Credits(settings, timer.credited))
    && (forall i :: 0 <= i < |settings| && (settings[i].BySpawn? || settings[i].ByFallback?) ==> i == 0)
    && (forall i :: 0 <= i < |settings| && settings[i].ByWord? ==> !proc)
  }

  /** A setting made in this poll was asked for by a line of the file, and by a fresh child or the window. */
  ghost predicate Justified(setting: Setting, poll: Poll, first: Option<Claim>) {
    match setting
    case BySpawn(_) => false
    case ByChild(at, line, member) =>
      poll.now <= at <= poll.armed && line in StartsOf(poll.file) && Runs(member, line, poll.files)
      && exists i: nat :: member in ViewAt(poll, i)
    case ByWord(at, line) => poll.now <= at <= poll.armed && line in StartsOf(poll.file)
    case ByFallback(at, line) => first == Some(Claim(line, at)) && poll.armed >= at + WINDOW
  }

  /** Each waiting claim is a start line of the file that was seen by now. */
  ghost predicate Waits(claims: seq<Claim>, now: nat, file: string) {
    forall c :: c in claims ==> c.seen <= now && c.line in StartsOf(file)
  }

  method Admit(timer: Timer, lines: seq<string>, now: nat, ghost file: string) returns (next: Timer)
    requires Waits(timer.claims, now, file) && forall line :: line in lines ==> line in StartsOf(file)
    ensures next.since == timer.since && next.running == timer.running && next.credited == timer.credited
    ensures |next.claims| <= MOST_CLAIMS && Waits(next.claims, now, file)
    ensures next.open == if timer.since.None? && timer.open.None? && lines != [] then Some(Claim(lines[0], now)) else timer.open
    ensures
      var all := timer.claims + seq(|lines|, i requires 0 <= i < |lines| => Claim(lines[i], now));
      next.claims == all[(if |all| > MOST_CLAIMS then |all| - MOST_CLAIMS else 0)..]
  {
    next := timer;
    if timer.since.None? && timer.open.None? && lines != [] {
      next := next.(open := Some(Claim(lines[0], now)));
    }
    var claims := timer.claims + seq(|lines|, i requires 0 <= i < |lines| => Claim(lines[i], now));
    var surplus := if |claims| > MOST_CLAIMS then |claims| - MOST_CLAIMS else 0;
    next := next.(claims := claims[surplus..]);
  }

  lemma OneMoreCredit(settings: seq<Setting>, credited: set<Identity>, setting: Setting)
    requires Credits(settings, credited) && setting.ByChild? && setting.member.identity !in credited
    ensures Credits(settings + [setting], credited + {setting.member.identity})
  {
  }

  /** A claim that set the clock: its timer, and the setting it made. */
  lemma AClaimMatched(timer: Timer, settings: seq<Setting>, proc: bool, poll: Poll, first: Option<Claim>, line: string,
                      member: Option<Member>, i: nat, at: nat)
    requires poll.now <= at <= poll.armed
    requires Fits(timer, settings, proc) && line in StartsOf(poll.file) && (member.None? <==> !proc)
    requires member.Some? ==> member.value in ViewAt(poll, i) && Runs(member.value, line, poll.files) && member.value.identity !in timer.credited
    ensures Fits(Matched(timer, at, line, member), settings + [SettingOf(at, line, member)], proc)
    ensures Justified(SettingOf(at, line, member), poll, first)
  {
    hide Runs, StartsOf, Credits;
    if member.Some? {
      OneMoreCredit(settings, timer.credited, SettingOf(at, line, member));
    }
  }

  function SettingOf(now: nat, line: string, member: Option<Member>): Setting {
    if member.Some? then ByChild(now, line, member.value) else ByWord(now, line)
  }

  function Matched(timer: Timer, now: nat, line: string, member: Option<Member>): Timer {
    timer.(since := Some(now), running := line, open := None,
           credited := timer.credited + if member.Some? then {member.value.identity} else {})
  }

  lemma FitsTheSame(timer: Timer, next: Timer, settings: seq<Setting>, proc: bool)
    requires Fits(timer, settings, proc) && next.since == timer.since && next.running == timer.running && next.credited == timer.credited
    ensures Fits(next, settings, proc)
  {
  }

  ghost predicate InWindow(claims: seq<Claim>, now: nat) { forall c :: c in claims ==> now < c.seen + WINDOW }

  ghost predicate SetBy(settings: seq<Setting>, from: nat, line: string) {
    exists k :: from <= k < |settings| && (settings[k].ByChild? || settings[k].ByWord?) && settings[k].line == line
  }

  /** Nothing but already credited children fits the line. */
  ghost predicate Unmatched(line: string, children: seq<Member>, files: map<string, string>, credited: set<Identity>) {
    forall member :: member in children && Runs(member, line, files) ==> member.identity in credited
  }

  /** A claim set the clock, or it found no fresh child and waits on or has waited out its window. */
  ghost predicate WasJudged(claim: Claim, i: nat, poll: Poll, proc: bool, settings: seq<Setting>, from: nat, next: Timer) {
    || SetBy(settings, from, claim.line)
    || (&& proc && Unmatched(claim.line, ViewAt(poll, i), poll.files, next.credited)
        && (claim in next.claims || JudgedAt(poll, i) >= claim.seen + WINDOW))
  }

  lemma JudgedOnce(claim: Claim, i: nat, poll: Poll, proc: bool, settings: seq<Setting>, from: nat, next: Timer,
                   more: seq<Setting>, later: Timer)
    requires WasJudged(claim, i, poll, proc, settings, from, next) && settings <= more
    requires next.credited <= later.credited && forall c :: c in next.claims ==> c in later.claims
    ensures WasJudged(claim, i, poll, proc, more, from, later)
  {
    if SetBy(settings, from, claim.line) {
      var k :| from <= k < |settings| && (settings[k].ByChild? || settings[k].ByWord?) && settings[k].line == claim.line;
      assert more[k] == settings[k];
    }
  }

  /** Every waiting claim judged once, oldest first; an unmatched one waits out its window. */
  method Judge(timer: Timer, poll: Poll, proc: bool, ghost settings: seq<Setting>, ghost first: Option<Claim>)
    returns (next: Timer, ghost more: seq<Setting>)
    requires Fits(timer, settings, proc) && Waits(timer.claims, poll.now, poll.file) && Clocks(poll)
    ensures Fits(next, more, proc) && settings <= more
    ensures forall i :: |settings| <= i < |more| ==> Justified(more[i], poll, first)
    ensures Waits(next.claims, poll.now, poll.file) && InWindow(next.claims, poll.now)
    ensures if more == settings then next == timer.(claims := next.claims) else next.open.None?
    ensures timer.claims == [] ==> next.claims == [] && more == settings
    ensures forall i :: 0 <= i < |timer.claims| ==> WasJudged(timer.claims[i], i, poll, proc, more, |settings|, next)
  {
    hide StartsOf, Runs, Fits, Justified, WasJudged, Unmatched, SetBy;
    next, more := timer.(claims := []), settings;
    FitsTheSame(timer, next, settings, proc);
    for i := 0 to |timer.claims|
      invariant Fits(next, more, proc) && settings <= more
      invariant forall k :: |settings| <= k < |more| ==> Justified(more[k], poll, first)
      invariant Waits(next.claims, poll.now, poll.file) && InWindow(next.claims, poll.now)
      invariant if more == settings then next == timer.(claims := next.claims) else next.open.None?
      invariant timer.claims == [] ==> next.claims == [] && more == settings
      invariant forall k :: 0 <= k < i ==> WasJudged(timer.claims[k], k, poll, proc, more, |settings|, next)
    {
      var claim := timer.claims[i];
      assert claim in timer.claims;
      ghost var was, made := next, more;
      var found := Started(claim.line, proc, poll.files, ViewAt(poll, i), next.credited);
      if found.Some? {
        AClaimMatched(next, more, proc, poll, first, claim.line, found.value, i, JudgedAt(poll, i));
        more := more + [SettingOf(JudgedAt(poll, i), claim.line, found.value)];
        next := Matched(next, JudgedAt(poll, i), claim.line, found.value);
      } else if JudgedAt(poll, i) < claim.seen + WINDOW {
        FitsTheSame(next, next.(claims := next.claims + [claim]), more, proc);
        next := next.(claims := next.claims + [claim]);
      }
      ThisOneWasJudged(claim, i, poll, proc, made, more, |settings|, next, found);
      forall k | 0 <= k < i
        ensures WasJudged(timer.claims[k], k, poll, proc, more, |settings|, next)
      {
        JudgedOnce(timer.claims[k], k, poll, proc, made, |settings|, was, more, next);
      }
    }
  }

  lemma ThisOneWasJudged(claim: Claim, i: nat, poll: Poll, proc: bool, made: seq<Setting>, more: seq<Setting>,
                         from: nat, next: Timer, found: Option<Option<Member>>)
    requires from <= |made|
    requires found.Some? ==> more == made + [SettingOf(JudgedAt(poll, i), claim.line, found.value)]
    requires found.None? ==>
      proc && (claim in next.claims || JudgedAt(poll, i) >= claim.seen + WINDOW)
      && forall member :: member in ViewAt(poll, i) && Runs(member, claim.line, poll.files) ==> member.identity in next.credited
    ensures WasJudged(claim, i, poll, proc, more, from, next)
  {
    if found.Some? {
      assert more[|made|] == SettingOf(JudgedAt(poll, i), claim.line, found.value);
    }
  }

  /** Sets a clock nothing has set, and only from the first start line once its window is over. */
  method Arm(timer: Timer, poll: Poll, proc: bool, ghost settings: seq<Setting>) returns (next: Timer, ghost more: seq<Setting>)
    requires Fits(timer, settings, proc)
    ensures Fits(next, more, proc) && settings <= more && next.claims == timer.claims
    ensures forall i :: |settings| <= i < |more| ==> Justified(more[i], poll, timer.open)
    ensures more == settings ==> next == timer
    ensures timer.since.Some? || timer.open.None? ==> more == settings
    ensures next.since.None? ==> next.open.None? || poll.armed < next.open.value.seen + WINDOW
  {
    hide StartsOf;
    next, more := timer, settings;
    if timer.since.None? && timer.open.Some? && poll.armed >= timer.open.value.seen + WINDOW {
      var open := timer.open.value;
      next := timer.(since := Some(open.seen), running := open.line, open := None);
      more := [ByFallback(open.seen, open.line)];
    }
  }

  /** The file only grows and the clock only goes on. */
  ghost predicate Polls(polls: seq<Poll>) {
    && (forall i :: 0 <= i < |polls| ==> Clocks(polls[i]))
    && forall i, j :: 0 <= i < j < |polls| ==> polls[i].late <= polls[j].now && polls[i].file <= polls[j].file
  }

  /** The first start line the file ever held, and when a turn first saw it. */
  ghost function FirstStart(polls: seq<Poll>): Option<Claim> {
    if polls == [] then None
    else
      var earlier := FirstStart(polls[..|polls| - 1]);
      var last := polls[|polls| - 1];
      if earlier.Some? || StartsOf(last.file) == [] then earlier else Some(Claim(StartsOf(last.file)[0], last.now))
  }

  /** One turn that ended neither the job nor the run: its settings, and where the clock stands after it. */
  ghost predicate Survived(poll: Poll, limit: nat, since: Option<nat>, first: Option<Claim>, clock: Clock) {
    && poll.exited.None? && !poll.stop
    && (since.Some? ==> poll.late < since.value + limit)
    && (since.None? && clock.PerExecutable? && first.Some? ==> poll.armed < first.value.seen + WINDOW)
  }

  /** Turn `k` made the settings from `from` to `upto`, each justified by it, and left the deadline unpassed. */
  ghost predicate TurnShows(polls: seq<Poll>, k: nat, limit: nat, clock: Clock, settings: seq<Setting>, from: nat, upto: nat)
    requires k < |polls|
  {
    && from <= upto <= |settings|
    && Survived(polls[k], limit, Since(settings[..upto]), FirstStart(polls[..k + 1]), clock)
    && forall i :: from <= i < upto ==> Justified(settings[i], polls[k], FirstStart(polls[..k + 1]))
  }

  function MarkBefore(marks: seq<nat>, k: nat, clock: Clock): nat
    requires k <= |marks|
  {
    if k == 0 then Spawned(clock) else marks[k - 1]
  }

  /** What the run of a job shows: `marks[k]` settings had been made after turn `k`. */
  ghost predicate Shows(polls: seq<Poll>, limit: nat, clock: Clock, settings: seq<Setting>, marks: seq<nat>) {
    && |marks| <= |polls|
    && forall k :: 0 <= k < |marks| ==> TurnShows(polls, k, limit, clock, settings, MarkBefore(marks, k, clock), marks[k])
  }

  function Spawned(clock: Clock): nat { if clock.FromSpawn? then 1 else 0 }

  /** Between turns: what the loop's variables say about the turns so far. */
  ghost predicate Between(timer: Timer, clock: Clock, first: Option<Claim>, watch: Watch, now: nat)
    reads watch
  {
    && watch.Valid()
    && if clock.FromSpawn? then timer.since.Some? && timer.claims == []
       else
         && (timer.since.None? ==> timer.open == first)
         && (first.None? <==> watch.given == [])
         && Waits(timer.claims, now, watch.read)
  }

  /** The first start line seen, once this turn has looked at the file. */
  ghost function FirstWith(first: Option<Claim>, poll: Poll): Option<Claim> {
    if first.Some? || StartsOf(poll.file) == [] then first else Some(Claim(StartsOf(poll.file)[0], poll.now))
  }

  lemma WaitsOn(claims: seq<Claim>, now: nat, file: string, later: nat, more: string, lines: seq<string>)
    requires Waits(claims, now, file) && now <= later && StartsOf(more) == StartsOf(file) + lines
    ensures Waits(claims, later, more) && forall line :: line in lines ==> line in StartsOf(more)
  {
  }

  /** One turn of the loop. Only a command that starts several executables has its output watched. */
  method Turn(timer: Timer, watch: Watch, poll: Poll, limit: nat, clock: Clock, proc: bool,
              ghost settings: seq<Setting>, ghost first: Option<Claim>, ghost before: nat)
    returns (next: Timer, outcome: Outcome, ghost more: seq<Setting>)
    requires Fits(timer, settings, proc) && Clocks(poll) && before <= poll.now && (clock.PerExecutable? ==> watch.read <= poll.file)
    requires Between(timer, clock, first, watch, before)
    modifies watch
    ensures Fits(next, more, proc) && settings <= more && (clock.FromSpawn? ==> more == settings)
    ensures forall i :: |settings| <= i < |more| ==> Justified(more[i], poll, FirstWith(first, poll))
    ensures outcome.Exited? <==> poll.exited.Some?
    ensures outcome.Exited? ==> Some(outcome.well) == poll.exited && more == settings
    ensures outcome.Stopped? ==> poll.stop
    ensures outcome.TimedOut? ==> !poll.stop && Since(more).Some? && poll.late >= Since(more).value + limit && outcome.running == LineOf(more)
    ensures outcome.Running? ==> Survived(poll, limit, Since(more), FirstWith(first, poll), clock)
    ensures outcome.Running? ==> Between(next, clock, FirstWith(first, poll), watch, poll.now) && (clock.PerExecutable? ==> watch.read == poll.file)
  {
    hide StartsOf, Runs, Credits, Fits, Waits;
    next, more := timer, settings;
    if poll.exited.Some? {
      return next, Exited(poll.exited.value), more;
    }
    if clock.PerExecutable? {
      ghost var file, given := watch.read, watch.given;
      var lines := watch.Starts(poll.file);
      WaitsOn(timer.claims, before, file, poll.now, poll.file, lines);
      next := Admit(timer, lines, poll.now, poll.file);
      FitsTheSame(timer, next, settings, proc);
      assert given == [] ==> given + lines == lines;
    } else {
      NothingWaits(poll.now, poll.file);
    }
    ghost var now := FirstWith(first, poll);
    next, more := Judge(next, poll, proc, settings, now);
    next, more := Arm(next, poll, proc, more);
    TheClockIsTheLastSetting(next, more, proc);
    outcome := if poll.stop then Stopped
      else if next.since.Some? && poll.late >= next.since.value + limit then TimedOut(next.running)
      else Running;
  }

  lemma NothingWaits(now: nat, file: string)
    ensures Waits([], now, file)
  {
  }

  lemma TheClockIsTheLastSetting(timer: Timer, settings: seq<Setting>, proc: bool)
    requires Fits(timer, settings, proc)
    ensures timer.since == Since(settings) && timer.running == LineOf(settings)
  {
  }

  lemma OneMoreFirst(polls: seq<Poll>, k: nat)
    requires k < |polls|
    ensures FirstStart(polls[..k + 1]) == FirstWith(FirstStart(polls[..k]), polls[k])
  {
    assert polls[..k + 1][..k] == polls[..k];
  }

  lemma TurnsStay(polls: seq<Poll>, k: nat, limit: nat, clock: Clock, settings: seq<Setting>, more: seq<Setting>,
                  from: nat, upto: nat)
    requires k < |polls| && TurnShows(polls, k, limit, clock, settings, from, upto) && settings <= more
    ensures TurnShows(polls, k, limit, clock, more, from, upto)
  {
    hide FirstStart, Survived, Justified;
    assert more[..upto] == settings[..upto];
  }

  lemma ATurnShows(polls: seq<Poll>, k: nat, limit: nat, clock: Clock, settings: seq<Setting>, from: nat)
    requires k < |polls| && from <= |settings|
    requires Survived(polls[k], limit, Since(settings), FirstStart(polls[..k + 1]), clock)
    requires forall i :: from <= i < |settings| ==> Justified(settings[i], polls[k], FirstStart(polls[..k + 1]))
    ensures TurnShows(polls, k, limit, clock, settings, from, |settings|)
  {
    hide FirstStart, Survived, Justified, Since;
    assert settings[..|settings|] == settings;
  }

  lemma OneMoreTurn(polls: seq<Poll>, limit: nat, clock: Clock, settings: seq<Setting>, marks: seq<nat>, more: seq<Setting>)
    requires Shows(polls, limit, clock, settings, marks) && |marks| < |polls| && settings <= more
    requires |settings| == MarkBefore(marks, |marks|, clock)
    requires forall i :: |settings| <= i < |more| ==> Justified(more[i], polls[|marks|], FirstStart(polls[..|marks| + 1]))
    ensures Shows(polls, limit, clock, more, marks)
    ensures |more| == MarkBefore(marks + [|more|], |marks| + 1, clock)
    ensures Survived(polls[|marks|], limit, Since(more), FirstStart(polls[..|marks| + 1]), clock) ==> Shows(polls, limit, clock, more, marks + [|more|])
  {
    hide FirstStart, Survived, Justified, Since;
    hide TurnShows;
    forall k | 0 <= k < |marks|
      ensures TurnShows(polls, k, limit, clock, more, MarkBefore(marks, k, clock), marks[k])
    {
      TurnsStay(polls, k, limit, clock, settings, more, MarkBefore(marks, k, clock), marks[k]);
    }
    if Survived(polls[|marks|], limit, Since(more), FirstStart(polls[..|marks| + 1]), clock) {
      ATurnShows(polls, |marks|, limit, clock, more, |settings|);
      var all := marks + [|more|];
      forall k | 0 <= k < |all|
        ensures TurnShows(polls, k, limit, clock, more, MarkBefore(all, k, clock), all[k])
      {
        assert k < |marks| ==> all[k] == marks[k] && MarkBefore(all, k, clock) == MarkBefore(marks, k, clock);
      }
    }
  }

  /**
   One command run to its end, its deadline or a stop. **Whatever it prints, the
   clock is set once by each child that started what a line named, and at most
   once besides**; the first turn that finds its clock expired kills it, and no
   turn leaves an expired clock or an unmatched first start line running.
   */
  method RunJob(polls: seq<Poll>, spawned: nat, limit: nat, clock: Clock, proc: bool)
    returns (outcome: Outcome, ghost settings: seq<Setting>, ghost marks: seq<nat>, ghost credited: set<Identity>)
    requires Polls(polls) && forall k :: 0 <= k < |polls| ==> spawned <= polls[k].now
    ensures Shows(polls, limit, clock, settings, marks)
    ensures clock.FromSpawn? ==> settings == [BySpawn(spawned)]
    ensures proc ==> Credits(settings, credited)
    ensures forall i :: 0 < i < |settings| ==> !settings[i].BySpawn? && !settings[i].ByFallback?
    ensures outcome.Running? <==> |marks| == |polls|
    ensures outcome.Exited? ==> polls[|marks|].exited == Some(outcome.well)
    ensures outcome.Stopped? ==> polls[|marks|].stop && polls[|marks|].exited.None?
    ensures
      outcome.TimedOut?
      ==> var poll := polls[|marks|];
          && poll.exited.None? && !poll.stop && settings != []
          && var last := settings[|settings| - 1];
             poll.late >= last.at + limit && outcome.running == if last.BySpawn? then "" else last.line
  {
    hide StartsOf, Runs, Credits, Waits, Justified, Survived, FirstStart, FirstWith;
    var timer := Timer(None, "", [], None, {});
    settings, marks := [], [];
    if clock.FromSpawn? {
      timer := timer.(since := Some(spawned));
      settings := [BySpawn(spawned)];
    }
    var watch := new Watch();
    ghost var now := spawned;
    NothingYet(polls, limit, timer, clock, settings, proc, watch, now);
    hide Shows, Fits, Between, Since, TurnShows, Polls, MarkBefore, Spawned, ViewAt, IsStart, Trim, WholeLines, Lines, StartsIn;
    for k := 0 to |polls|
      invariant |marks| == k && Fits(timer, settings, proc)
      invariant |settings| == MarkBefore(marks, k, clock)
      invariant Shows(polls, limit, clock, settings, marks)
      invariant clock.FromSpawn? ==> settings == [BySpawn(spawned)]
      invariant now == if k == 0 then spawned else polls[k - 1].now
      invariant clock.PerExecutable? ==> watch.read == if k == 0 then "" else polls[k - 1].file
      invariant Between(timer, clock, FirstStart(polls[..k]), watch, now)
    {
      ghost var before := settings;
      OneMoreFirst(polls, k);
      ThePollsGoOn(polls, k, spawned);
      timer, outcome, settings := Turn(timer, watch, polls[k], limit, clock, proc, settings, FirstStart(polls[..k]), now);
      OneMoreTurn(polls, limit, clock, before, marks, settings);
      if !outcome.Running? {
        TheLimits(timer, settings, proc);
        return outcome, settings, marks, timer.credited;
      }
      marks, now := marks + [|settings|], polls[k].now;
    }
    TheLimits(timer, settings, proc);
    return Running, settings, marks, timer.credited;
  }

  lemma ThePollsGoOn(polls: seq<Poll>, k: nat, spawned: nat)
    requires Polls(polls) && k < |polls| && spawned <= polls[k].now
    ensures (if k == 0 then spawned else polls[k - 1].now) <= polls[k].now
    ensures (if k == 0 then "" else polls[k - 1].file) <= polls[k].file
    ensures Clocks(polls[k])
  {
  }

  lemma NothingYet(polls: seq<Poll>, limit: nat, timer: Timer, clock: Clock, settings: seq<Setting>, proc: bool,
                   watch: Watch, now: nat)
    requires timer.credited == {} && timer.claims == [] && timer.open.None? && watch.Valid() && watch.given == []
    requires if clock.FromSpawn? then |settings| == 1 && settings[0].BySpawn? else settings == []
    requires timer.since == Since(settings) && timer.running == ""
    ensures Fits(timer, settings, proc)
    ensures Shows(polls, limit, clock, settings, []) && |settings| == MarkBefore([], 0, clock)
    ensures Between(timer, clock, FirstStart(polls[..0]), watch, now)
  {
  }

  lemma TheLimits(timer: Timer, settings: seq<Setting>, proc: bool)
    requires Fits(timer, settings, proc)
    ensures proc ==> Credits(settings, timer.credited)
    ensures forall i :: 0 < i < |settings| ==> !settings[i].BySpawn? && !settings[i].ByFallback?
  {
  }

  /** Every child seen from turn `from` on had set the clock before. */
  ghost predicate NoFreshChild(polls: seq<Poll>, settings: seq<Setting>, done: nat, from: nat, upto: nat)
    requires upto <= |polls| && done <= |settings|
  {
    forall k, i: nat, member :: from <= k < upto && member in ViewAt(polls[k], i) ==> HadSet(settings, done, member.identity)
  }

  ghost predicate HadSet(settings: seq<Setting>, done: nat, identity: Identity)
    requires done <= |settings|
  {
    exists j :: 0 <= j < done && settings[j].ByChild? && settings[j].member.identity == identity
  }

  /**
   **A hung test cannot move its own deadline by printing**: once the clock runs
   and no child starts, no line sets it again, and a run still going is within
   the limit of the last setting.
   */
  lemma {:induction false} PrintingMovesNoDeadline(polls: seq<Poll>, limit: nat, clock: Clock, settings: seq<Setting>,
                                                   marks: seq<nat>, credited: set<Identity>, from: nat, k: nat)
    requires Shows(polls, limit, clock, settings, marks) && Credits(settings, credited)
    requires from <= k < |marks| && 0 < marks[from] <= |settings| && NoFreshChild(polls, settings, marks[from], from + 1, k + 1)
    ensures marks[k] == marks[from] && polls[k].late < settings[marks[from] - 1].at + limit
  {
    hide Credits, Shows;
    TurnOf(polls, limit, clock, settings, marks, k);
    hide TurnShows, NoFreshChild;
    if from < k {
      assert NoFreshChild(polls, settings, marks[from], from + 1, k) by {
        FewerTurns(polls, settings, marks[from], from + 1, k);
      }
      PrintingMovesNoDeadline(polls, limit, clock, settings, marks, credited, from, k - 1);
      if marks[k - 1] < marks[k] {
        ASettingNeedsAFreshChild(polls, settings, credited, marks[from], from + 1, k, marks[k - 1], FirstStart(polls[..k + 1]));
      }
    }
  }

  lemma FewerTurns(polls: seq<Poll>, settings: seq<Setting>, done: nat, from: nat, upto: nat)
    requires upto < |polls| && done <= |settings| && NoFreshChild(polls, settings, done, from, upto + 1)
    ensures NoFreshChild(polls, settings, done, from, upto)
  {
  }

  lemma TurnOf(polls: seq<Poll>, limit: nat, clock: Clock, settings: seq<Setting>, marks: seq<nat>, k: nat)
    requires Shows(polls, limit, clock, settings, marks) && k < |marks|
    ensures |marks| <= |polls| && MarkBefore(marks, k, clock) <= marks[k] <= |settings|
    ensures marks[k] > 0 ==> polls[k].late < settings[marks[k] - 1].at + limit
    ensures forall i :: MarkBefore(marks, k, clock) <= i < marks[k] ==> Justified(settings[i], polls[k], FirstStart(polls[..k + 1]))
  {
    hide Justified, FirstStart, TurnShows;
    ATurnMeans(polls, k, limit, clock, settings, MarkBefore(marks, k, clock), marks[k]);
  }

  lemma ATurnMeans(polls: seq<Poll>, k: nat, limit: nat, clock: Clock, settings: seq<Setting>, from: nat, upto: nat)
    requires k < |polls| && TurnShows(polls, k, limit, clock, settings, from, upto)
    ensures from <= upto <= |settings|
    ensures upto > 0 ==> polls[k].late < settings[upto - 1].at + limit
    ensures forall i :: from <= i < upto ==> Justified(settings[i], polls[k], FirstStart(polls[..k + 1]))
  {
    hide Justified, FirstStart;
    if upto > 0 {
      assert settings[..upto][|settings[..upto]| - 1] == settings[upto - 1];
    }
  }

  lemma ASettingNeedsAFreshChild(polls: seq<Poll>, settings: seq<Setting>, credited: set<Identity>, done: nat,
                                 from: nat, k: nat, i: nat, first: Option<Claim>)
    requires Credits(settings, credited) && 0 < done <= i < |settings| && from <= k < |polls|
    requires Justified(settings[i], polls[k], first)
    ensures !NoFreshChild(polls, settings, done, from, k + 1)
  {
    hide Runs, StartsOf;
    var v: nat :| settings[i].member in ViewAt(polls[k], v);
    assert !HadSet(settings, done, settings[i].member.identity);
  }
}
