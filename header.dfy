/**
 * The account header (`src/components/header.tsx`): the avatar's initials
 * and the reference to the signed-in user's profile document.
 */
module Header {
  import opened Wrappers
  import Text

  /** `map(n => n[0]).join('')`: an empty piece gives `undefined`, which joins as nothing. */
  function FirstChars(pieces: seq<string>): (r: string)
    ensures |r| <= |pieces|
    ensures forall c :: c in r ==> exists p :: p in pieces && p != "" && p[0] == c
    ensures (forall k :: 0 <= k < |pieces| ==> pieces[k] != "") ==>
      |r| == |pieces| && forall k :: 0 <= k < |r| ==> r[k] == pieces[k][0]
  {
    if pieces == [] then ""
    else
      var head := if pieces[0] == "" then "" else [pieces[0][0]];
      var tail := FirstChars(pieces[1..]);
      assert forall c :: c in head + tail ==> c in head || c in tail;
      assert forall p :: p in pieces[1..] ==> p in pieces;
      head + tail
  }

  /**
   * `getInitials`: "U" for a missing or empty name, otherwise the first
   * character of each space-separated piece, at most two, upper-cased.
   */
  function Initials(name: Option<string>): (r: string)
    ensures |r| <= 2
    ensures name.None? || name.value == "" ==> r == "U"
  {
    if name.None? || name.value == "" then "U"
    else Text.ToUpper(Text.Prefix(FirstChars(Text.Split(name.value, " ")), 2))
  }

  /** The characters of `s` that begin a word, scanning with "the previous character was a space". */
  function StartsAfter(s: string, afterSpace: bool): string
    decreases |s|
  {
    if s == [] then ""
    else (if afterSpace && s[0] != ' ' then [s[0]] else "") + StartsAfter(s[1..], s[0] == ' ')
  }

  /** Every non-space character that opens `s` or follows a space. */
  function WordStarts(s: string): string {
    StartsAfter(s, true)
  }

  predicate SpaceFree(p: string) {
    forall k :: 0 <= k < |p| ==> p[k] != ' '
  }

  lemma {:induction false} StartsAfterSpaceFree(p: string, tail: string, afterSpace: bool)
    requires SpaceFree(p)
    ensures StartsAfter(p + tail, afterSpace) ==
      (if afterSpace && p != "" then [p[0]] else "") + StartsAfter(tail, afterSpace && p == "")
    decreases |p|
  {
    if p == "" {
      assert p + tail == tail;
    } else {
      assert (p + tail)[0] == p[0];
      assert (p + tail)[1..] == p[1..] + tail;
      StartsAfterSpaceFree(p[1..], tail, false);
    }
  }

  lemma NotContainsSpace(p: string)
    requires !Text.Contains(p, " ")
    ensures SpaceFree(p)
  {
    forall k | 0 <= k < |p| ensures p[k] != ' ' {
      if p[k] == ' ' {
        assert p[k..k + 1] == " ";
        assert Text.OccursAt(p, " ", k);
      }
    }
  }

  /** A space ends the current word, so what follows it starts afresh. */
  lemma SpaceThenWordStarts(rest: string, afterSpace: bool)
    ensures StartsAfter(" " + rest, afterSpace) == WordStarts(rest)
  {
    assert (" " + rest)[1..] == rest;
  }

  /** Cutting `s` around position `i`. */
  lemma CutAround(s: string, i: nat)
    requires i < |s|
    ensures s == s[..i] + ([s[i]] + s[i + 1..])
  {
  }

  /** Splitting at the first space gives that piece, then the pieces of the rest. */
  lemma SplitAtFirstSpace(s: string, i: nat)
    requires Text.IndexOf(s, " ") == Some(i)
    ensures i < |s| && s[i] == ' '
    ensures Text.Split(s, " ") == [s[..i]] + Text.Split(s[i + 1..], " ")
  {
    assert s[i..i + 1] == " ";
  }

  /** The first characters of the pieces of `split(' ')` are the word starts. */
  lemma {:induction false} FirstCharsOfSplit(s: string)
    ensures FirstChars(Text.Split(s, " ")) == WordStarts(s)
    decreases |s|
  {
    match Text.IndexOf(s, " ")
    case None =>
      NotContainsSpace(s);
      assert s + "" == s;
      StartsAfterSpaceFree(s, "", true);
    case Some(i) =>
      SplitAtFirstSpace(s, i);
      CutAround(s, i);
      var piece, rest := s[..i], s[i + 1..];
      var pieces := Text.Split(s, " ");
      assert pieces[0] == piece && pieces[1..] == Text.Split(rest, " ");
      NotContainsSpace(piece);
      FirstCharsOfSplit(rest);
      StartsAfterSpaceFree(piece, " " + rest, true);
      SpaceThenWordStarts(rest, piece == "");
  }

  /** For a non-empty name the initials are its first two word starts, upper-cased. */
  lemma InitialsAreWordStarts(name: string)
    requires name != ""
    ensures Initials(Some(name)) == Text.ToUpper(Text.Prefix(WordStarts(name), 2))
  {
    FirstCharsOfSplit(name);
  }

  lemma {:induction false} StartsAfterSpaces(s: string, afterSpace: bool)
    requires forall k :: 0 <= k < |s| ==> s[k] == ' '
    ensures StartsAfter(s, afterSpace) == ""
    decreases |s|
  {
    if s != [] {
      StartsAfterSpaces(s[1..], true);
    }
  }

  /** A name of spaces only is not empty, so it is not "U": every piece is empty and so is the result. */
  lemma SpacesOnlyGiveNoInitials(name: string)
    requires name != "" && forall k :: 0 <= k < |name| ==> name[k] == ' '
    ensures Initials(Some(name)) == ""
  {
    InitialsAreWordStarts(name);
    StartsAfterSpaces(name, true);
  }

  /** When the first two pieces are not empty, whatever follows them does not matter. */
  lemma LaterPiecesIgnored(a: string, b: string, rest: string)
    requires a != "" && b != "" && SpaceFree(a) && SpaceFree(b)
    ensures Initials(Some(a + " " + b + " " + rest)) == Text.ToUpper([a[0], b[0]])
  {
    var name := a + " " + b + " " + rest;
    assert name == a + (" " + (b + (" " + rest)));
    InitialsAreWordStarts(name);
    StartsAfterSpaceFree(a, " " + (b + (" " + rest)), true);
    assert (" " + (b + (" " + rest)))[1..] == b + (" " + rest);
    StartsAfterSpaceFree(b, " " + rest, true);
    assert (" " + rest)[1..] == rest;
    assert WordStarts(name) == [a[0]] + ([b[0]] + StartsAfter(rest, true));
    assert Text.Prefix(WordStarts(name), 2) == [a[0], b[0]];
  }

  /** Spaces in front of a name do not change its initials. */
  lemma LeadingSpaceIgnored(rest: string)
    requires rest != ""
    ensures Initials(Some(" " + rest)) == Initials(Some(rest))
  {
    InitialsAreWordStarts(" " + rest);
    InitialsAreWordStarts(rest);
    assert (" " + rest)[1..] == rest;
  }

  /**
   * Pieces after the second can matter after all: when the first piece is
   * empty (the name starts with a space), the third piece supplies the
   * second initial.
   */
  lemma EmptyPieceLetsThirdCount(b: string, c: string)
    requires b != "" && c != "" && SpaceFree(b) && SpaceFree(c)
    ensures Initials(Some(" " + b + " " + c)) == Text.ToUpper([b[0], c[0]])
  {
    assert " " + b + " " + c == " " + (b + " " + c);
    LeadingSpaceIgnored(b + " " + c);
    TwoWordsInitials(b, c);
  }

  lemma TwoWordsInitials(a: string, b: string)
    requires a != "" && b != "" && SpaceFree(a) && SpaceFree(b)
    ensures Initials(Some(a + " " + b)) == Text.ToUpper([a[0], b[0]])
  {
    var name := a + " " + b;
    assert name == a + (" " + (b + ""));
    InitialsAreWordStarts(name);
    StartsAfterSpaceFree(a, " " + (b + ""), true);
    assert (" " + (b + ""))[1..] == b + "";
    StartsAfterSpaceFree(b, "", true);
    assert WordStarts(name) == [a[0], b[0]];
  }

  /** `userProfileRef`: `users/<uid>` once both the store and a user are there. */
  function ProfileRef(hasFirestore: bool, uid: Option<string>): (r: Option<seq<string>>)
    ensures r.Some? <==> hasFirestore && uid.Some?
    ensures r.Some? ==> r.value == ["users", uid.value]
  {
    if !hasFirestore || uid.None? then None else Some(["users", uid.value])
  }
}
