/** Managed-session records and the two notions of validity that the registry checks. */
module Registry {
  import opened Text
  import opened Patterns

  datatype Session = Session(id: string, name: string, publicRef: string, tmuxName: string, socket: string,
                             pid: int, cwd: string, createdAt: string)

  predicate Alphanumeric(c: char) { 'A' <= c <= 'Z' || 'a' <= c <= 'z' || '0' <= c <= '9' }

  predicate ValidId(id: string) {
    && 1 <= |id| <= 64 && Alphanumeric(id[0])
    && forall i :: 0 <= i < |id| ==> Alphanumeric(id[i]) || id[i] == '.' || id[i] == '_' || id[i] == '-'
  }

  predicate ValidPublicRef(ref: string) {
    |ref| == 32 && forall i :: 0 <= i < |ref| ==> Alphanumeric(ref[i]) || ref[i] == '_' || ref[i] == '-'
  }

  const LETTERS_AND_DIGITS: Class := [('A', 'Z'), ('a', 'z'), ('0', '9')]

  lemma IsAlphanumeric(c: char)
    ensures Alphanumeric(c) <==> InClass(LETTERS_AND_DIGITS, c)
  {
    var class_ := LETTERS_AND_DIGITS;
    assert class_[0] == ('A', 'Z') && class_[1] == ('a', 'z') && class_[2] == ('0', '9');
  }

  /** An ID is a letter or a digit and up to 63 more, or periods, underscores and hyphens. */
  lemma IdPattern(id: string)
    ensures ValidId(id) <==>
      Matches([Repeated(LETTERS_AND_DIGITS, 1, 1), Repeated(LETTERS_AND_DIGITS + [('.', '.'), ('_', '_'), ('-', '-')], 0, 63)], id)
  {
    var first, more := LETTERS_AND_DIGITS, LETTERS_AND_DIGITS + [('.', '.'), ('_', '_'), ('-', '-')];
    TwoPieces(Repeated(first, 1, 1), Repeated(more, 0, 63), 1, id);
    assert more[3] == ('.', '.') && more[4] == ('_', '_') && more[5] == ('-', '-');
    forall c
      ensures InClass(more, c) <==> Alphanumeric(c) || c == '.' || c == '_' || c == '-'
      ensures InClass(first, c) <==> Alphanumeric(c)
    {
      IsAlphanumeric(c);
      assert forall i :: 0 <= i < 3 ==> more[i] == first[i];
    }
    if |id| >= 1 {
      var head, tail := id[..1], id[1..];
      assert head[0] == id[0] && forall k :: 0 <= k < |tail| ==> tail[k] == id[k + 1];
      assert AllIn(first, head) <==> Alphanumeric(id[0]);
      assert forall k :: 1 <= k < |id| ==> id[k] == tail[k - 1];
    }
  }

  /** A public reference is 32 letters, digits, underscores and hyphens. */
  lemma PublicRefPattern(ref: string)
    ensures ValidPublicRef(ref) <==> Matches([Repeated(LETTERS_AND_DIGITS + [('_', '_'), ('-', '-')], 32, 32)], ref)
  {
    var word := LETTERS_AND_DIGITS + [('_', '_'), ('-', '-')];
    OnePiece(Repeated(word, 32, 32), ref);
    assert word[3] == ('_', '_') && word[4] == ('-', '-');
    forall c
      ensures InClass(word, c) <==> Alphanumeric(c) || c == '_' || c == '-'
    {
      IsAlphanumeric(c);
      assert forall i :: 0 <= i < 3 ==> word[i] == LETTERS_AND_DIGITS[i];
    }
  }

  predicate IsAbsolute(path: string) { |path| > 0 && path[0] == '/' }

  /** The state directory is a clean absolute path, so only the root ends in a slash. */
  function SocketsDir(stateDir: string): string { (if stateDir == "/" then "" else stateDir) + "/sockets/" }

  function ExpectedSocket(stateDir: string, id: string): string { SocketsDir(stateDir) + id + ".sock" }

  predicate Canonical(stateDir: string, s: Session) {
    && ValidId(s.id) && s.name == s.id && ValidPublicRef(s.publicRef) && s.tmuxName == s.id
    && TrimSpace(s.socket) != "" && IsAbsolute(s.socket) && s.pid >= 0
    && s.socket == ExpectedSocket(stateDir, s.id)
  }

  predicate Compatible(stateDir: string, s: Session) {
    && ValidId(s.id) && TrimSpace(s.name) != "" && (s.publicRef != "" ==> ValidPublicRef(s.publicRef))
    && s.tmuxName == s.id && s.pid >= 0 && s.socket == ExpectedSocket(stateDir, s.id)
  }

  /** An older record is accepted if it lacks no more than its name and a public reference. */
  lemma CompatibleIf(stateDir: string, s: Session, ref: string)
    requires IsAbsolute(stateDir) && ValidPublicRef(ref)
    ensures Compatible(stateDir, s) <==>
      Canonical(stateDir, s.(name := s.id, publicRef := if s.publicRef == "" then ref else s.publicRef)) && TrimSpace(s.name) != ""
  {
    SocketIsAbsolute(stateDir, s.id);
  }

  /** A canonical record has its ID for a name, in tmux too, and the one socket for that ID. */
  lemma CanonicalIs(stateDir: string, s: Session)
    requires IsAbsolute(stateDir)
    ensures Canonical(stateDir, s) <==>
      && ValidId(s.id) && ValidPublicRef(s.publicRef) && s.pid >= 0
      && s == Session(s.id, s.id, s.publicRef, s.id, (if stateDir == "/" then "" else stateDir) + "/sockets/" + s.id + ".sock",
                      s.pid, s.cwd, s.createdAt)
  {
    SocketIsAbsolute(stateDir, s.id);
  }

  lemma SocketIsAbsolute(stateDir: string, id: string)
    requires IsAbsolute(stateDir)
    ensures IsAbsolute(ExpectedSocket(stateDir, id)) && TrimSpace(ExpectedSocket(stateDir, id)) != ""
  {
    assert ExpectedSocket(stateDir, id)[0] == '/';
  }

  /** Sessions with different IDs have different sockets. */
  lemma SocketsDiffer(stateDir: string, a: string, b: string)
    ensures ExpectedSocket(stateDir, a) == ExpectedSocket(stateDir, b) ==> a == b
  {
    var front := SocketsDir(stateDir);
    assert ExpectedSocket(stateDir, a)[|front|..|front| + |a|] == a;
    assert ExpectedSocket(stateDir, b)[|front|..|front| + |b|] == b;
  }
}
