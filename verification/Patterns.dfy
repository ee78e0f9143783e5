/** The regular expressions that identifiers are checked with, as far as they are used: texts and
    repeated classes of characters, one after another, from the first character to the last. */
module Patterns {

  /** A class is a list of ranges. */
  type Class = seq<(char, char)>

  datatype Piece = Exactly(text: string) | Repeated(class_: Class, least: nat, most: nat)

  predicate InClass(class_: Class, c: char) { exists i :: 0 <= i < |class_| && class_[i].0 <= c <= class_[i].1 }

  predicate AllIn(class_: Class, s: string) { forall k :: 0 <= k < |s| ==> InClass(class_, s[k]) }

  /** The piece matches exactly this text. */
  predicate Fits(p: Piece, s: string) {
    match p
    case Exactly(text) => s == text
    case Repeated(class_, least, most) => least <= |s| <= most && AllIn(class_, s)
  }

  ghost predicate Matches(pieces: seq<Piece>, s: string)
    decreases |pieces|
  {
    if pieces == [] then s == ""
    else exists k :: 0 <= k <= |s| && Fits(pieces[0], s[..k]) && Matches(pieces[1..], s[k..])
  }

  lemma OnePiece(p: Piece, s: string)
    ensures Matches([p], s) <==> Fits(p, s)
  {
    assert [p][1..] == [];
    if Matches([p], s) {
      var k :| 0 <= k <= |s| && Fits(p, s[..k]) && Matches([p][1..], s[k..]);
      assert s[..k] == s;
    }
    if Fits(p, s) {
      assert s[..|s|] == s && Matches([p][1..], s[|s|..]);
    }
  }

  /** The length of the first of two pieces, when it is fixed, says where to cut. */
  lemma TwoPieces(a: Piece, b: Piece, n: nat, s: string)
    requires forall t :: Fits(a, t) ==> |t| == n
    ensures Matches([a, b], s) <==> n <= |s| && Fits(a, s[..n]) && Fits(b, s[n..])
  {
    assert [a, b][1..] == [b];
    if Matches([a, b], s) {
      var k :| 0 <= k <= |s| && Fits(a, s[..k]) && Matches([a, b][1..], s[k..]);
      assert k == n;
      OnePiece(b, s[n..]);
    }
    if n <= |s| && Fits(a, s[..n]) && Fits(b, s[n..]) {
      OnePiece(b, s[n..]);
    }
  }
}
