/** Terminal bridges recognised by their command lines, and the plan that leaves one. */
module BridgeCommands {
  import opened Text
  import opened Registry

  datatype Kind = Unrelated | Legacy | Current

  type Argv = seq<string>

  const NUL := '\0'

  // ----- Paths and numbers

  function LastSlash(path: string): int
    ensures -1 <= LastSlash(path) < |path|
  {
    if path == "" then -1 else if path[|path| - 1] == '/' then |path| - 1 else LastSlash(path[..|path| - 1])
  }

  function TrimSlashes(path: string): string {
    if path != "" && path[|path| - 1] == '/' then TrimSlashes(path[..|path| - 1]) else path
  }

  /** The last element of a path. */
  function Base(path: string): string {
    if path == "" then "."
    else
      var trimmed := TrimSlashes(path);
      if trimmed == "" then "/" else trimmed[LastSlash(trimmed) + 1..]
  }

  /** strconv.Itoa on a non-negative number. */
  function Itoa(n: nat): (s: string)
    ensures s != "" && Digits(s)
  {
    if n < 10 then ["0123456789"[n]] else Itoa(n / 10) + ["0123456789"[n % 10]]
  }

  // ----- Command lines

  /** What a bridge for this session is started with, after the program name. */
  function BridgeArguments(s: Session, scrollback: string, tmux: string): Argv {
    ["-W", "-i", s.socket, "-b", "/terminal/" + s.publicRef, "-t", "scrollback=" + scrollback,
     tmux, "attach-session", "-E", "-t", s.tmuxName]
  }

  function PreviousArguments(s: Session, scrollback: string): Argv {
    ["-W", "-i", s.socket, "-b", "/terminal/" + s.id, "-t", "scrollback=" + scrollback,
     "tmux", "attach-session", "-t", s.tmuxName]
  }

  /** ttyd may turn the '=' of its scrollback option into an argument boundary. */
  function SplitScrollback(args: Argv, scrollback: string): Argv
    requires |args| >= 7
  {
    args[..6] + ["scrollback", scrollback] + args[7..]
  }

  predicate HasOptionValue(args: Argv, option: string, value: string) {
    exists i :: 0 <= i < |args| - 1 && args[i] == option && args[i + 1] == value
  }

  function OptionValue(args: Argv, option: string): string {
    if |args| < 2 then "" else if args[0] == option then args[1] else OptionValue(args[1..], option)
  }

  predicate HasArgumentSuffix(args: Argv, suffix: Argv) {
    0 < |suffix| <= |args| && Join(args[|args| - |suffix|..], NUL) == Join(suffix, NUL)
  }

  function Classify(args: Argv, ttydBase: string, tmux: string, s: Session): Kind {
    if args == [] || Base(args[0]) != ttydBase then Unrelated
    else if !HasOptionValue(args[1..], "-i", s.socket) then Unrelated
    else
      var base := OptionValue(args[1..], "-b");
      var currentBase, legacyBase := "/terminal/" + s.publicRef, "/terminal/" + s.id;
      if base != currentBase && base != legacyBase then Unrelated
      else if HasArgumentSuffix(args[1..], [tmux, "attach-session", "-E", "-t", s.tmuxName]) then
        if base == legacyBase && base != currentBase then Legacy else Current
      else if HasArgumentSuffix(args[1..], [tmux, "attach-session", "-t", s.tmuxName]) then Legacy
      else Unrelated
  }

  predicate Digits(s: string) { forall i :: 0 <= i < |s| ==> '0' <= s[i] <= '9' }

  function DecimalValue(s: string): nat
    requires Digits(s)
  {
    if s == "" then 0 else DecimalValue(s[..|s| - 1]) * 10 + (s[|s| - 1] as int - '0' as int)
  }

  /** A number exactly as strconv.Itoa writes a non-negative 64-bit one. */
  predicate CanonicalDecimal(s: string) {
    s != "" && Digits(s) && (s[0] == '0' ==> |s| == 1) && DecimalValue(s) < 0x8000_0000_0000_0000
  }

  function HasPrefix(s: string, prefix: string): bool { |prefix| <= |s| && s[..|prefix|] == prefix }

  /** The exact command line of the release before, which named tmux without a path. */
  predicate PreviousRegistered(args: Argv, ttydBase: string, s: Session) {
    && |args| >= 8 && Base(args[0]) == ttydBase && ValidPublicRef(s.publicRef)
    && (HasPrefix(args[7], "scrollback=") || (args[7] == "scrollback" && |args| > 8))
    && var joined := HasPrefix(args[7], "scrollback=");
    var text := if joined then args[7][|"scrollback="|..] else args[8];
    && CanonicalDecimal(text)
    && (|| SameCommand(args, BridgeArguments(s, text, "tmux"), text, joined)
        || SameCommand(args, PreviousArguments(s, text), text, joined))
  }

  predicate SameCommand(args: Argv, candidate: Argv, scrollback: string, joined: bool)
    requires |args| >= 1 && |candidate| >= 7
  {
    Join(args, NUL) == Join([args[0]] + (if joined then candidate else SplitScrollback(candidate, scrollback)), NUL)
  }

  /** How a running bridge process relates to a session. */
  function KindOf(ttydBase: string, tmux: string, s: Session, pid: int, args: Argv): Kind {
    var kind := Classify(args, ttydBase, tmux, s);
    if kind != Unrelated then kind
    else if pid == s.pid && PreviousRegistered(args, ttydBase, s) then Legacy
    else Unrelated
  }

  // ----- Whose command line it is

  predicate NulFree(args: Argv) { forall a :: a in args ==> NUL !in a }

  /** Comparing joined command lines is comparing command lines, for those without NULs. */
  lemma JoinDecides(a: Argv, b: Argv)
    requires a != [] && b != [] && NulFree(a) && NulFree(b)
    ensures Join(a, NUL) == Join(b, NUL) ==> a == b
  {
    SplitJoin(a, NUL);
    SplitJoin(b, NUL);
  }

  predicate Launched(stateDir: string, s: Session, tmux: string, program: string, scrollback: string, args: Argv) {
    && Canonical(stateDir, s) && IsAbsolute(stateDir) && IsAbsolute(tmux) && Digits(scrollback)
    && (|| args == [program] + BridgeArguments(s, scrollback, tmux)
        || args == [program] + SplitScrollback(BridgeArguments(s, scrollback, tmux), scrollback))
  }

  lemma ClassifyOwn(s: Session, ttydBase: string, tmux: string, rest: Argv, args: Argv, program: string)
    requires Base(program) == ttydBase && s.socket != "-b"
    requires rest == ["-W", "-i", s.socket, "-b", "/terminal/" + s.publicRef] + args
    requires |args| >= 5 && args[|args| - 5..] == [tmux, "attach-session", "-E", "-t", s.tmuxName]
    ensures Classify([program] + rest, ttydBase, tmux, s) == Current
  {
    assert ([program] + rest)[1..] == rest;
    assert rest[1] == "-i" && rest[2] == s.socket;
    assert HasOptionValue(rest, "-i", s.socket);
    assert rest[1..][0] == "-i" && rest[1..][1..] == rest[2..] && rest[2..][1..] == rest[3..];
    assert OptionValue(rest, "-b") == OptionValue(rest[1..], "-b") == OptionValue(rest[2..], "-b") == OptionValue(rest[3..], "-b");
    assert OptionValue(rest[3..], "-b") == "/terminal/" + s.publicRef;
    assert rest[|rest| - 5..] == args[|args| - 5..];
  }

  /** A bridge started for a session is recognised as its current one, in either spelling. */
  lemma OwnBridgeIsCurrent(stateDir: string, s: Session, ttydBase: string, tmux: string, program: string, scrollback: string, args: Argv, pid: int)
    requires Launched(stateDir, s, tmux, program, scrollback, args) && Base(program) == ttydBase
    ensures KindOf(ttydBase, tmux, s, pid, args) == Current
  {
    var rest := args[1..];
    assert args == [program] + rest;
    ClassifyOwn(s, ttydBase, tmux, rest, rest[5..], program);
  }

  lemma SessionNulFree(stateDir: string, s: Session)
    requires Canonical(stateDir, s) && NUL !in stateDir
    ensures NUL !in s.id && NUL !in s.publicRef && NUL !in s.socket && NUL !in s.tmuxName
  {
    assert NUL !in "/sockets/" && NUL !in ".sock";
  }

  lemma CandidatesNulFree(s: Session, text: string, program: string, joined: bool)
    requires NUL !in s.id && NUL !in s.publicRef && NUL !in s.socket && NUL !in s.tmuxName && NUL !in text && NUL !in program
    ensures var a, b := BridgeArguments(s, text, "tmux"), PreviousArguments(s, text);
            && NulFree([program] + (if joined then a else SplitScrollback(a, text)))
            && NulFree([program] + (if joined then b else SplitScrollback(b, text)))
  {
    assert NUL !in "/terminal/" && NUL !in "scrollback=";
    var a, b := BridgeArguments(s, text, "tmux"), PreviousArguments(s, text);
    NulFreeAll(a);
    NulFreeAll(b);
    NulFreeAll(["scrollback", text]);
    assert NulFree(a[..6]) && NulFree(a[7..]) && NulFree(b[..6]) && NulFree(b[7..]);
  }

  lemma NulFreeAll(args: Argv)
    requires forall i :: 0 <= i < |args| ==> NUL !in args[i]
    ensures NulFree(args)
  {
  }

  /** The previous release's command line names the session's own socket. */
  lemma PreviousNamesSocket(args: Argv, ttydBase: string, s: Session, stateDir: string)
    requires NulFree(args) && Canonical(stateDir, s) && NUL !in stateDir && PreviousRegistered(args, ttydBase, s)
    ensures args[2] == "-i" && args[3] == s.socket
  {
    hide Canonical, Base, ValidPublicRef, Join;
    var joined := HasPrefix(args[7], "scrollback=");
    var text := if joined then args[7][|"scrollback="|..] else args[8];
    SessionNulFree(stateDir, s);
    CandidatesNulFree(s, text, args[0], joined);
    SameCommandNamesSocket(args, BridgeArguments(s, text, "tmux"), text, joined);
    SameCommandNamesSocket(args, PreviousArguments(s, text), text, joined);
  }

  lemma SameCommandNamesSocket(args: Argv, candidate: Argv, text: string, joined: bool)
    requires |args| >= 4 && |candidate| >= 7 && NulFree(args)
    requires NulFree([args[0]] + (if joined then candidate else SplitScrollback(candidate, text)))
    ensures SameCommand(args, candidate, text, joined) ==> args[2] == candidate[1] && args[3] == candidate[2]
  {
    JoinDecides(args, [args[0]] + (if joined then candidate else SplitScrollback(candidate, text)));
  }

  lemma NotOurSocket(s: Session, tmux: string, program: string, scrollback: string, args: Argv, socket: string)
    requires IsAbsolute(s.socket) && IsAbsolute(tmux) && ValidId(s.tmuxName) && s.socket != socket && Digits(scrollback)
    requires || args == [program] + BridgeArguments(s, scrollback, tmux)
             || args == [program] + SplitScrollback(BridgeArguments(s, scrollback, tmux), scrollback)
    ensures !HasOptionValue(args[1..], "-i", socket)
  {
    var rest := args[1..];
    assert s.tmuxName[0] != '-';
    assert scrollback == "" || scrollback[0] != '-';
    assert scrollback != "-i";
    assert forall i :: 0 <= i < |rest| - 1 && i != 1 ==> rest[i] != "-i";
  }

  /** ... and has nothing to do with any other session. */
  lemma OtherBridgeIsUnrelated(stateDir: string, s: Session, other: Session, ttydBase: string, tmux: string, program: string,
                               scrollback: string, args: Argv, pid: int)
    requires Launched(stateDir, s, tmux, program, scrollback, args) && Canonical(stateDir, other) && other.id != s.id
    requires NulFree(args) && NUL !in stateDir
    ensures KindOf(ttydBase, tmux, other, pid, args) == Unrelated
  {
    SocketsDiffer(stateDir, s.id, other.id);
    NotOurSocket(s, tmux, program, scrollback, args, other.socket);
    NotPrevious(args, ttydBase, other, stateDir);
    UnrelatedIf(ttydBase, tmux, other, pid, args);
  }

  lemma NotPrevious(args: Argv, ttydBase: string, s: Session, stateDir: string)
    requires NulFree(args) && Canonical(stateDir, s) && NUL !in stateDir && |args| > 3 && args[3] != s.socket
    ensures !PreviousRegistered(args, ttydBase, s)
  {
    if PreviousRegistered(args, ttydBase, s) {
      PreviousNamesSocket(args, ttydBase, s, stateDir);
    }
  }

  lemma UnrelatedIf(ttydBase: string, tmux: string, s: Session, pid: int, args: Argv)
    requires args != [] && !HasOptionValue(args[1..], "-i", s.socket) && !PreviousRegistered(args, ttydBase, s)
    ensures KindOf(ttydBase, tmux, s, pid, args) == Unrelated
  {
  }

  /** A bridge started with another tmux path serves the session's socket and is recognised as
      nothing of it. */
  lemma OtherTmuxIsUnrelated(stateDir: string, s: Session, ttydBase: string, tmux: string, other: string, program: string,
                             scrollback: string, args: Argv, pid: int)
    requires Launched(stateDir, s, other, program, scrollback, args) && NulFree(args) && NUL !in stateDir
    requires IsAbsolute(tmux) && NUL !in tmux && other != tmux
    ensures KindOf(ttydBase, tmux, s, pid, args) == Unrelated && HasOptionValue(args[1..], "-i", s.socket)
  {
    hide Canonical, Base, Join, ValidPublicRef;
    var rest := args[1..];
    LaunchedEnds(stateDir, s, other, program, scrollback, args);
    SessionNulFree(stateDir, s);
    OtherSuffix(rest, s, tmux, other);
    if PreviousRegistered(args, ttydBase, s) {
      PreviousEnds(args, ttydBase, s, stateDir);
      assert false;
    }
  }

  lemma LaunchedEnds(stateDir: string, s: Session, tmux: string, program: string, scrollback: string, args: Argv)
    requires Launched(stateDir, s, tmux, program, scrollback, args)
    ensures |args| >= 12 && var rest := args[1..];
            && args == [program] + rest && HasOptionValue(rest, "-i", s.socket)
            && rest[|rest| - 5..] == [tmux, "attach-session", "-E", "-t", s.tmuxName]
            && args[|args| - 5] == tmux && args[|args| - 4] == "attach-session"
  {
    hide Canonical;
    var rest := args[1..];
    assert rest[1] == "-i" && rest[2] == s.socket;
  }

  lemma OtherSuffix(rest: Argv, s: Session, tmux: string, other: string)
    requires |rest| >= 5 && rest[|rest| - 5..] == [other, "attach-session", "-E", "-t", s.tmuxName]
    requires IsAbsolute(tmux) && NUL !in tmux && NUL !in s.tmuxName && NUL !in other && other != tmux
    ensures !HasArgumentSuffix(rest, [tmux, "attach-session", "-E", "-t", s.tmuxName])
    ensures !HasArgumentSuffix(rest, [tmux, "attach-session", "-t", s.tmuxName])
  {
    var five, four := rest[|rest| - 5..], rest[|rest| - 4..];
    assert four == five[1..];
    NulFreeAll(five);
    NulFreeAll(four);
    NulFreeAll([tmux, "attach-session", "-E", "-t", s.tmuxName]);
    NulFreeAll([tmux, "attach-session", "-t", s.tmuxName]);
    JoinDecides(five, [tmux, "attach-session", "-E", "-t", s.tmuxName]);
    JoinDecides(four, [tmux, "attach-session", "-t", s.tmuxName]);
    assert five[0] != tmux && four[0] != tmux;
  }

  /** The previous release's command line names tmux without a path. */
  lemma PreviousEnds(args: Argv, ttydBase: string, s: Session, stateDir: string)
    requires NulFree(args) && Canonical(stateDir, s) && NUL !in stateDir && PreviousRegistered(args, ttydBase, s)
    ensures |args| >= 12 && (args[|args| - 5] == "tmux" || args[|args| - 4] == "tmux")
  {
    hide Canonical, Base, ValidPublicRef, Join;
    var joined := HasPrefix(args[7], "scrollback=");
    var text := if joined then args[7][|"scrollback="|..] else args[8];
    SessionNulFree(stateDir, s);
    CandidatesNulFree(s, text, args[0], joined);
    SameCommandIs(args, BridgeArguments(s, text, "tmux"), text, joined);
    SameCommandIs(args, PreviousArguments(s, text), text, joined);
  }

  lemma SameCommandIs(args: Argv, candidate: Argv, text: string, joined: bool)
    requires |args| >= 1 && |candidate| >= 7 && NulFree(args)
    requires NulFree([args[0]] + (if joined then candidate else SplitScrollback(candidate, text)))
    ensures SameCommand(args, candidate, text, joined) ==>
              args == [args[0]] + (if joined then candidate else SplitScrollback(candidate, text))
  {
    JoinDecides(args, [args[0]] + (if joined then candidate else SplitScrollback(candidate, text)));
  }

  // ----- Exactly which command lines are recognised

  predicate EndsIn(args: Argv, tail: Argv) { |tail| < |args| && args[|args| - |tail|..] == tail }

  lemma SuffixDecides(args: Argv, tail: Argv)
    requires args != [] && tail != [] && NulFree(args) && NulFree(tail)
    ensures HasArgumentSuffix(args[1..], tail) <==> EndsIn(args, tail)
  {
    hide Join, NulFree;
    if |tail| < |args| {
      var rest := args[1..];
      var end := args[|args| - |tail|..];
      assert rest[|rest| - |tail|..] == end;
      NulFreeTail(args, |args| - |tail|);
      JoinDecides(end, tail);
    }
  }

  lemma NulFreeTail(args: Argv, n: nat)
    requires NulFree(args) && n <= |args|
    ensures NulFree(args[n..])
  {
    NulFreeAll(args[n..]);
  }

  lemma AttachNulFree(s: Session, tmux: string)
    requires NUL !in tmux && NUL !in s.tmuxName
    ensures NulFree([tmux, "attach-session", "-E", "-t", s.tmuxName]) && NulFree([tmux, "attach-session", "-t", s.tmuxName])
  {
    NulFreeAll([tmux, "attach-session", "-E", "-t", s.tmuxName]);
    NulFreeAll([tmux, "attach-session", "-t", s.tmuxName]);
  }

  /** A command line is current exactly if it runs ttyd on the session's socket under its public
      reference and attaches with -E; it is legacy exactly if it does so under the session's ID, or
      attaches without -E under either. */
  lemma ClassifiedAs(args: Argv, ttydBase: string, tmux: string, s: Session)
    requires args != [] && NulFree(args) && NUL !in tmux && NUL !in s.tmuxName
    ensures var ours := Base(args[0]) == ttydBase && HasOptionValue(args[1..], "-i", s.socket);
            var base := OptionValue(args[1..], "-b");
            var safe := EndsIn(args, [tmux, "attach-session", "-E", "-t", s.tmuxName]);
            var plain := EndsIn(args, [tmux, "attach-session", "-t", s.tmuxName]);
            && (Classify(args, ttydBase, tmux, s) == Current <==> ours && base == "/terminal/" + s.publicRef && safe)
            && (Classify(args, ttydBase, tmux, s) == Legacy <==>
                  ours && (|| (base == "/terminal/" + s.id && base != "/terminal/" + s.publicRef && (safe || plain))
                           || (base == "/terminal/" + s.publicRef && plain)))
  {
    hide Base, HasOptionValue, OptionValue, HasArgumentSuffix;
    AttachNulFree(s, tmux);
    SuffixDecides(args, [tmux, "attach-session", "-E", "-t", s.tmuxName]);
    SuffixDecides(args, [tmux, "attach-session", "-t", s.tmuxName]);
    NotBoth(args, tmux, s.tmuxName);
  }

  lemma NotBoth(args: Argv, tmux: string, name: string)
    ensures !(EndsIn(args, [tmux, "attach-session", "-E", "-t", name]) && EndsIn(args, [tmux, "attach-session", "-t", name]))
  {
    ThirdFromEnd(args, [tmux, "attach-session", "-E", "-t", name]);
    ThirdFromEnd(args, [tmux, "attach-session", "-t", name]);
  }

  lemma ThirdFromEnd(args: Argv, tail: Argv)
    requires |tail| >= 3
    ensures EndsIn(args, tail) ==> |args| > 3 && args[|args| - 3] == tail[|tail| - 3]
  {
    if EndsIn(args, tail) {
      assert args[|args| - 3] == args[|args| - |tail|..][|tail| - 3];
    }
  }

  /** The value of an option is what follows its first occurrence, if anything does. */
  lemma {:induction false} OptionValueIs(args: Argv, option: string, i: nat)
    requires i <= |args| && (forall k :: 0 <= k < i ==> args[k] != option)
    requires i < |args| ==> args[i] == option
    ensures OptionValue(args, option) == if i + 1 < |args| then args[i + 1] else ""
  {
    if |args| >= 2 && args[0] != option {
      if i >= 1 { assert args[1..][i - 1..] == args[i..]; }
      OptionValueIs(args[1..], option, i - 1);
    }
  }

  /** The release before is recognised in four spellings: with -E or without, under the public
      reference or the ID, and with ttyd's '=' kept or turned into a boundary. */
  function PreviousSpelling(s: Session, program: string, text: string, safe: bool, joined: bool): Argv {
    [program, "-W", "-i", s.socket, "-b", "/terminal/" + (if safe then s.publicRef else s.id), "-t"]
    + (if joined then ["scrollback=" + text] else ["scrollback", text])
    + ["tmux", "attach-session"] + (if safe then ["-E"] else []) + ["-t", s.tmuxName]
  }

  function PreviousCandidate(s: Session, text: string, safe: bool): (r: Argv)
    ensures |r| >= 8
  {
    if safe then BridgeArguments(s, text, "tmux") else PreviousArguments(s, text)
  }

  lemma CandidateIs(s: Session, text: string, safe: bool)
    ensures var candidate := PreviousCandidate(s, text, safe);
            && candidate[..6] == ["-W", "-i", s.socket, "-b", "/terminal/" + (if safe then s.publicRef else s.id), "-t"]
            && candidate[6] == "scrollback=" + text
            && candidate[7..] == ["tmux", "attach-session"] + (if safe then ["-E"] else []) + ["-t", s.tmuxName]
  {
    if safe {
      assert BridgeArguments(s, text, "tmux")[7..] == ["tmux", "attach-session", "-E", "-t", s.tmuxName];
    } else {
      assert PreviousArguments(s, text)[7..] == ["tmux", "attach-session", "-t", s.tmuxName];
    }
  }

  lemma SpellingIs(s: Session, program: string, text: string, safe: bool, joined: bool)
    ensures var candidate := PreviousCandidate(s, text, safe);
            PreviousSpelling(s, program, text, safe, joined) ==
            [program] + (if joined then candidate else SplitScrollback(candidate, text))
  {
    hide PreviousCandidate;
    CandidateIs(s, text, safe);
    var candidate := PreviousCandidate(s, text, safe);
    assert candidate == candidate[..6] + [candidate[6]] + candidate[7..];
  }

  /** Exactly these, with a number as Itoa writes it, and nothing else. */
  lemma PreviousExactly(args: Argv, ttydBase: string, s: Session, stateDir: string)
    requires args != [] && NulFree(args) && Canonical(stateDir, s) && NUL !in stateDir
    ensures PreviousRegistered(args, ttydBase, s) <==>
      Base(args[0]) == ttydBase &&
      exists text, safe, joined :: CanonicalDecimal(text) && args == PreviousSpelling(s, args[0], text, safe, joined)
  {
    hide Canonical, Base, Join;
    SessionNulFree(stateDir, s);
    if PreviousRegistered(args, ttydBase, s) {
      var joined := HasPrefix(args[7], "scrollback=");
      var text := if joined then args[7][|"scrollback="|..] else args[8];
      CandidatesNulFree(s, text, args[0], joined);
      SameCommandIs(args, BridgeArguments(s, text, "tmux"), text, joined);
      SameCommandIs(args, PreviousArguments(s, text), text, joined);
      SpellingIs(s, args[0], text, true, joined);
      SpellingIs(s, args[0], text, false, joined);
      assert args == PreviousSpelling(s, args[0], text, true, joined) || args == PreviousSpelling(s, args[0], text, false, joined);
    }
    if Base(args[0]) == ttydBase {
      forall text, safe, joined | CanonicalDecimal(text) && args == PreviousSpelling(s, args[0], text, safe, joined)
        ensures PreviousRegistered(args, ttydBase, s)
      {
        CanonicalRef(stateDir, s);
        SpellingRegistered(args, ttydBase, s, text, safe, joined);
      }
    }
  }

  lemma CanonicalRef(stateDir: string, s: Session)
    requires Canonical(stateDir, s)
    ensures ValidPublicRef(s.publicRef)
  {
  }

  lemma SpellingRegistered(args: Argv, ttydBase: string, s: Session, text: string, safe: bool, joined: bool)
    requires CanonicalDecimal(text) && ValidPublicRef(s.publicRef)
    requires args != [] && args == PreviousSpelling(s, args[0], text, safe, joined) && Base(args[0]) == ttydBase
    ensures PreviousRegistered(args, ttydBase, s)
  {
    hide Base, Join, CanonicalDecimal, ValidPublicRef;
    SpellingIs(s, args[0], text, safe, joined);
    if joined {
      assert args[7] == "scrollback=" + text;
      assert args[7][..|"scrollback="|] == "scrollback=" && args[7][|"scrollback="|..] == text;
    } else {
      assert args[7] == "scrollback" && args[8] == text;
    }
    assert HasPrefix(args[7], "scrollback=") <==> joined;
  }

  /** A bridge of the previous release, in any of these spellings, is legacy for the session that
      registered it, and for nobody else's PID. */
  lemma PreviousBridgeOnlyIfRegistered(stateDir: string, s: Session, ttydBase: string, tmux: string, args: Argv, text: string,
                                       safe: bool, joined: bool, pid: int)
    requires Canonical(stateDir, s) && NUL !in stateDir && IsAbsolute(tmux) && NUL !in tmux && CanonicalDecimal(text)
    requires args != [] && NulFree(args) && Base(args[0]) == ttydBase && args == PreviousSpelling(s, args[0], text, safe, joined)
    ensures KindOf(ttydBase, tmux, s, pid, args) == if pid == s.pid then Legacy else Unrelated
  {
    hide Canonical, Base, Join, Classify, PreviousRegistered;
    SessionNulFree(stateDir, s);
    CanonicalRef(stateDir, s);
    SpellingRegistered(args, ttydBase, s, text, safe, joined);
    ClassifiedAs(args, ttydBase, tmux, s);
    SpellingNamesNoPath(args, s, tmux, text, safe, joined);
    assert Classify(args, ttydBase, tmux, s) == Unrelated;
  }

  lemma SpellingNamesNoPath(args: Argv, s: Session, tmux: string, text: string, safe: bool, joined: bool)
    requires args != [] && args == PreviousSpelling(s, args[0], text, safe, joined) && IsAbsolute(tmux) && CanonicalDecimal(text)
    ensures !EndsIn(args, [tmux, "attach-session", "-E", "-t", s.tmuxName])
    ensures !EndsIn(args, [tmux, "attach-session", "-t", s.tmuxName])
  {
    NthFromEnd(args, [tmux, "attach-session", "-E", "-t", s.tmuxName]);
    NthFromEnd(args, [tmux, "attach-session", "-t", s.tmuxName]);
    assert text[0] != '/';
  }

  lemma NthFromEnd(args: Argv, tail: Argv)
    requires tail != []
    ensures EndsIn(args, tail) ==> |args| > |tail| && args[|args| - |tail|] == tail[0]
  {
    if EndsIn(args, tail) {
      assert args[|args| - |tail|] == args[|args| - |tail|..][0];
    }
  }

  /** What a bridge is started with, option by option. */
  lemma StartedWith(s: Session, scrollback: string, tmux: string)
    ensures var args := BridgeArguments(s, scrollback, tmux);
            && args[0] == "-W" && HasOptionValue(args, "-i", s.socket) && HasOptionValue(args, "-b", "/terminal/" + s.publicRef)
            && HasOptionValue(args, "-t", "scrollback=" + scrollback)
            && args[7..] == [tmux, "attach-session", "-E", "-t", s.tmuxName] && |args| == 12
  {
    var args := BridgeArguments(s, scrollback, tmux);
    assert args[1] == "-i" && args[3] == "-b" && args[5] == "-t";
    assert args[2] == s.socket && args[4] == "/terminal/" + s.publicRef && args[6] == "scrollback=" + scrollback;
  }

  /** A number is written so that it reads as itself. */
  lemma {:induction false} ItoaReads(n: nat)
    ensures DecimalValue(Itoa(n)) == n && (Itoa(n)[0] == '0' ==> |Itoa(n)| == 1)
    ensures n < 0x8000_0000_0000_0000 ==> CanonicalDecimal(Itoa(n))
  {
    if n >= 10 {
      ItoaReads(n / 10);
      ItoaNotZero(n / 10);
      assert Itoa(n)[..|Itoa(n)| - 1] == Itoa(n / 10);
    } else {
      assert Itoa(n)[..0] == "";
      assert forall d :: 0 <= d < 10 ==> "0123456789"[d] as int == '0' as int + d;
    }
  }

  /** ... and a canonical decimal is nothing else. */
  lemma {:induction false} DecimalIsItoa(s: string)
    requires s != "" && Digits(s) && (s[0] == '0' ==> |s| == 1)
    ensures Itoa(DecimalValue(s)) == s
  {
    hide Itoa;
    var front, last := s[..|s| - 1], s[|s| - 1];
    assert s == front + [last];
    if front == "" {
      assert DecimalValue("") == 0;
      OneDigit(last);
    } else {
      DecimalIsItoa(front);
      DecimalPositive(front);
      ItoaSnoc(DecimalValue(front), last);
    }
  }

  lemma OneDigit(c: char)
    requires '0' <= c <= '9'
    ensures Itoa(c as int - '0' as int) == [c]
  {
    assert forall d :: 0 <= d < 10 ==> "0123456789"[d] as int == '0' as int + d;
  }

  lemma ItoaSnoc(n: nat, c: char)
    requires n > 0 && '0' <= c <= '9'
    ensures Itoa(n * 10 + (c as int - '0' as int)) == Itoa(n) + [c]
  {
    var m := n * 10 + (c as int - '0' as int);
    assert m / 10 == n && m % 10 == c as int - '0' as int;
    assert forall d :: 0 <= d < 10 ==> "0123456789"[d] as int == '0' as int + d;
  }

  lemma {:induction false} DecimalPositive(s: string)
    requires s != "" && Digits(s) && s[0] != '0'
    ensures DecimalValue(s) > 0
  {
    if |s| > 1 { DecimalPositive(s[..|s| - 1]); }
  }

  lemma CanonicalDecimalIs(s: string)
    ensures CanonicalDecimal(s) <==> exists n: nat :: n < 0x8000_0000_0000_0000 && s == Itoa(n)
  {
    if CanonicalDecimal(s) {
      DecimalIsItoa(s);
      assert s == Itoa(DecimalValue(s));
    }
    forall n: nat | n < 0x8000_0000_0000_0000 && s == Itoa(n)
      ensures CanonicalDecimal(s)
    {
      ItoaReads(n);
    }
  }

  lemma {:induction false} ItoaNotZero(n: nat)
    requires n > 0
    ensures Itoa(n)[0] != '0'
  {
    if n >= 10 { ItoaNotZero(n / 10); }
  }

  /** The last element of a path is what follows its last slash, slashes at the end aside. */
  lemma {:induction false} BaseIs(dir: string, name: string, slashes: string)
    requires name != "" && '/' !in name && (dir == "" || dir[|dir| - 1] == '/')
    requires forall k :: 0 <= k < |slashes| ==> slashes[k] == '/'
    ensures Base(dir + name + slashes) == name
    decreases |slashes|
  {
    var path := dir + name;
    assert path[|path| - 1] == name[|name| - 1] && name[|name| - 1] in name;
    if slashes == "" {
      assert path + slashes == path;
      LastSlashBefore(dir, name);
    } else {
      var front := slashes[..|slashes| - 1];
      assert (path + slashes)[..|path + slashes| - 1] == path + front;
      BaseIs(dir, name, front);
    }
  }

  lemma {:induction false} LastSlashBefore(dir: string, name: string)
    requires '/' !in name && (dir == "" || dir[|dir| - 1] == '/')
    ensures LastSlash(dir + name) == |dir| - 1
  {
    if name == "" {
      assert dir + name == dir;
    } else {
      var path := dir + name;
      assert path[|path| - 1] == name[|name| - 1] && name[|name| - 1] in name;
      assert path[..|path| - 1] == dir + name[..|name| - 1];
      LastSlashBefore(dir, name[..|name| - 1]);
    }
  }

  // ----- Which bridges to keep and which to stop

  datatype Verified = Verified(current: seq<int>, legacy: seq<int>)

  function Add(v: Verified, pid: int, kind: Kind): Verified {
    match kind
    case Current => v.(current := v.current + [pid])
    case Legacy => v.(legacy := v.legacy + [pid])
    case Unrelated => v
  }

  function Insert(x: int, s: seq<int>): seq<int> {
    if s == [] || x <= s[0] then [x] + s else [s[0]] + Insert(x, s[1..])
  }

  /** sort.Ints */
  function Sort(s: seq<int>): seq<int> {
    if s == [] then [] else Insert(s[0], Sort(s[1..]))
  }

  ghost predicate NoRepeats(s: seq<int>) { s == [] || (s[0] !in s[1..] && NoRepeats(s[1..])) }

  lemma {:induction false} NoRepeatsSnoc(s: seq<int>, x: int)
    requires NoRepeats(s) && x !in s
    ensures NoRepeats(s + [x])
  {
    if s == [] {
      assert s + [x] == [x] && [x][1..] == [];
    } else {
      NoRepeatsSnoc(s[1..], x);
      assert (s + [x])[0] == s[0] && (s + [x])[1..] == s[1..] + [x];
    }
  }

  lemma {:induction false} NoRepeatsConcat(a: seq<int>, b: seq<int>)
    requires NoRepeats(a) && NoRepeats(b) && forall x :: x in a ==> x !in b
    ensures NoRepeats(a + b)
  {
    if a == [] {
      assert a + b == b;
    } else {
      assert forall x :: x in a[1..] ==> x in a;
      NoRepeatsConcat(a[1..], b);
      assert a[0] in a && (a + b)[0] == a[0] && (a + b)[1..] == a[1..] + b;
    }
  }

  ghost predicate Ordered(s: seq<int>) { |s| <= 1 || (s[0] <= s[1] && Ordered(s[1..])) }

  lemma {:induction false} InsertOrders(x: int, s: seq<int>)
    requires Ordered(s)
    ensures Ordered(Insert(x, s))
  {
    if s == [] || x <= s[0] {
      assert ([x] + s)[1..] == s;
    } else {
      InsertOrders(x, s[1..]);
      assert Insert(x, s)[1..] == Insert(x, s[1..]);
      assert |s| > 1 ==> s[1..][0] == s[1];
    }
  }

  lemma {:induction false} SortOrders(s: seq<int>)
    ensures Ordered(Sort(s))
  {
    if s != [] {
      SortOrders(s[1..]);
      InsertOrders(s[0], Sort(s[1..]));
    }
  }

  lemma {:induction false} OrderedLeast(s: seq<int>)
    requires Ordered(s)
    ensures forall x :: x in s ==> s[0] <= x
  {
    if |s| > 1 {
      OrderedLeast(s[1..]);
      assert s == [s[0]] + s[1..];
    }
  }

  lemma {:induction false} InsertKeeps(x: int, s: seq<int>)
    ensures forall y :: y in Insert(x, s) <==> y == x || y in s
    ensures NoRepeats(s) && x !in s ==> NoRepeats(Insert(x, s))
  {
    if s == [] || x <= s[0] {
      assert ([x] + s)[1..] == s;
    } else {
      InsertKeeps(x, s[1..]);
      assert ([s[0]] + Insert(x, s[1..]))[1..] == Insert(x, s[1..]);
      assert s == [s[0]] + s[1..];
    }
  }

  lemma {:induction false} SortKeeps(s: seq<int>)
    ensures forall y :: y in Sort(s) <==> y in s
    ensures NoRepeats(s) ==> NoRepeats(Sort(s))
  {
    if s != [] {
      SortKeeps(s[1..]);
      InsertKeeps(s[0], Sort(s[1..]));
      assert s == [s[0]] + s[1..];
    }
  }

  function All(v: Verified): seq<int> { Sort(v.current + v.legacy) }

  function Keep(v: Verified, registered: int, ready: bool): int {
    if !ready || v.current == [] then 0 else if registered in v.current then registered else v.current[0]
  }

  function Without(pids: seq<int>, keep: int): seq<int> {
    if pids == [] then [] else (if pids[0] != keep then [pids[0]] else []) + Without(pids[1..], keep)
  }

  lemma {:induction false} WithoutKeeps(pids: seq<int>, keep: int)
    ensures forall y :: y in Without(pids, keep) <==> y in pids && y != keep
    ensures NoRepeats(pids) ==> NoRepeats(Without(pids, keep))
  {
    if pids != [] {
      WithoutKeeps(pids[1..], keep);
      assert pids == [pids[0]] + pids[1..];
      if pids[0] != keep {
        assert Without(pids, keep)[1..] == Without(pids[1..], keep);
      } else {
        assert Without(pids, keep) == Without(pids[1..], keep);
      }
    }
  }

  function Stops(v: Verified, registered: int, ready: bool): seq<int> { Without(All(v), Keep(v, registered, ready)) }

  method ReconcilePlan(v: Verified, registered: int, ready: bool) returns (keep: int, stop: seq<int>)
    ensures keep == Keep(v, registered, ready) && stop == Stops(v, registered, ready)
  {
    keep := 0;
    if ready && |v.current| > 0 {
      keep := v.current[0];
      if registered in v.current {
        keep := registered;
      }
    }
    stop := Others(All(v), keep);
  }

  method Others(all: seq<int>, keep: int) returns (stop: seq<int>)
    ensures stop == Without(all, keep)
  {
    stop := [];
    for i := 0 to |all|
      invariant stop == Without(all[..i], keep)
    {
      WithoutSnoc(all[..i], all[i], keep);
      assert all[..i + 1] == all[..i] + [all[i]];
      if all[i] != keep {
        stop := stop + [all[i]];
      }
    }
    assert all[..|all|] == all;
  }

  lemma {:induction false} WithoutSnoc(pids: seq<int>, pid: int, keep: int)
    ensures Without(pids + [pid], keep) == Without(pids, keep) + (if pid != keep then [pid] else [])
  {
    var more, last := pids + [pid], if pid != keep then [pid] else [];
    if pids == [] {
      assert more == [pid] && more[1..] == [] && Without([], keep) == [];
    } else {
      WithoutSnoc(pids[1..], pid, keep);
      assert more[0] == pids[0] && more[1..] == pids[1..] + [pid];
      var head := if pids[0] != keep then [pids[0]] else [];
      assert head + (Without(pids[1..], keep) + last) == head + Without(pids[1..], keep) + last;
    }
  }

  /** The /proc listing names each process once, and none of them is init. */
  ghost predicate Distinct(v: Verified) {
    NoRepeats(v.current + v.legacy) && forall pid :: pid in v.current || pid in v.legacy ==> pid > 1
  }

  /** Carrying out the plan stops each verified process but one, exactly once, and nothing
      else; what is left, if anything, is one current bridge, and it is the registered one
      whenever that is current and the socket answers. */
  lemma PlanLeavesOne(v: Verified, registered: int, ready: bool)
    requires Distinct(v)
    ensures var keep, stop := Keep(v, registered, ready), Stops(v, registered, ready);
            && NoRepeats(stop)
            && (forall pid :: pid in stop <==> (pid in v.current || pid in v.legacy) && pid != keep)
            && (keep != 0 <==> ready && v.current != [])
            && (keep != 0 ==> keep in v.current && keep !in stop)
            && (ready && registered in v.current ==> keep == registered)
  {
    SortKeeps(v.current + v.legacy);
    WithoutKeeps(All(v), Keep(v, registered, ready));
    assert v.current != [] ==> v.current[0] in v.current;
  }
}
