/** internal/roster/slug.go: a realm as typed becomes words of [a-z0-9] joined by hyphens. */
module Slug {
  import opened Options

  predicate IsPlain(c: char) { 'a' <= c <= 'z' || '0' <= c <= '9' }

  /** Lower casing, one rune at a time; all that matters here is what it leaves alone. */
  ghost predicate LeavesPlainAlone(lower: char -> char) {
    lower('-') == '-' && forall c | IsPlain(c) :: lower(c) == c
  }

  const DEACCENT: map<char, char> := map[
    '\U{E1}' := 'a', '\U{E0}' := 'a', '\U{E2}' := 'a', '\U{E4}' := 'a', '\U{E3}' := 'a', '\U{E5}' := 'a',
    '\U{E9}' := 'e', '\U{E8}' := 'e', '\U{EA}' := 'e', '\U{EB}' := 'e',
    '\U{ED}' := 'i', '\U{EC}' := 'i', '\U{EE}' := 'i', '\U{EF}' := 'i',
    '\U{F3}' := 'o', '\U{F2}' := 'o', '\U{F4}' := 'o', '\U{F6}' := 'o', '\U{F5}' := 'o',
    '\U{FA}' := 'u', '\U{F9}' := 'u', '\U{FB}' := 'u', '\U{FC}' := 'u',
    '\U{F1}' := 'n', '\U{E7}' := 'c', '\U{FD}' := 'y', '\U{FF}' := 'y']

  predicate IsApostrophe(c: char) { c == '\'' || c == '\U{2019}' }

  function Folded(c: char): char { if c in DEACCENT then DEACCENT[c] else c }

  /** What one rune does to the slug: nothing, one letter, or the end of a word. */
  datatype Token = Nothing | Letter(c: char) | Gap

  function TokenOf(c: char, lower: char -> char): Token {
    var r := lower(c);
    if IsApostrophe(r) then Nothing
    else if IsPlain(Folded(r)) then Letter(Folded(r))
    else Gap
  }

  /** The pieces between gaps, empty ones included. */
  function Pieces(realm: string, lower: char -> char): (ps: seq<string>)
    ensures |ps| > 0
  {
    if realm == "" then [""]
    else
      Extended(Pieces(realm[..|realm| - 1], lower), TokenOf(realm[|realm| - 1], lower))
  }

  function Extended(ps: seq<string>, t: Token): (qs: seq<string>)
    requires |ps| > 0
    ensures |qs| > 0
  {
    match t
    case Nothing => ps
    case Gap => ps + [""]
    case Letter(c) => ps[..|ps| - 1] + [ps[|ps| - 1] + [c]]
  }

  function Words(pieces: seq<string>): seq<string> {
    if pieces == [] then []
    else
      var ws := Words(pieces[..|pieces| - 1]);
      if pieces[|pieces| - 1] == "" then ws else ws + [pieces[|pieces| - 1]]
  }

  function Joined(words: seq<string>): string {
    if words == [] then ""
    else if |words| == 1 then words[0]
    else Joined(words[..|words| - 1]) + "-" + words[|words| - 1]
  }

  /** The slug as a reader would define it. */
  function SlugOf(realm: string, lower: char -> char): string { Joined(Words(Pieces(realm, lower))) }

  /** A hyphen is held back until the letter after it, so none ends up first or last. */
  method RealmSlug(realm: string, lower: char -> char) returns (slug: string)
    ensures slug == SlugOf(realm, lower)
  {
    slug := "";
    var pendingHyphen := false;
    for i := 0 to |realm|
      invariant Holds(Pieces(realm[..i], lower), slug, pendingHyphen)
    {
      assert realm[..i + 1][..i] == realm[..i];
      ghost var before := Pieces(realm[..i], lower);
      var r := lower(realm[i]);
      if IsApostrophe(r) { continue; }
      if r in DEACCENT { r := DEACCENT[r]; }
      if IsPlain(r) {
        LetterJoins(before, slug, pendingHyphen, r);
        if pendingHyphen && |slug| > 0 { slug := slug + "-"; }
        pendingHyphen := false;
        slug := slug + [r];
        continue;
      }
      GapJoins(before);
      pendingHyphen := true;
    }
    assert realm[..|realm|] == realm;
  }

  /** The builder holds the words so far; a pending hyphen is an open empty piece. */
  ghost predicate Holds(pieces: seq<string>, slug: string, pending: bool) {
    && pieces != []
    && slug == Joined(Words(pieces))
    && (pending ==> pieces[|pieces| - 1] == "")
    && (!pending ==> pieces[|pieces| - 1] != "" || slug == "")
  }

  lemma NonEmptyJoin(pieces: seq<string>)
    ensures forall w | w in Words(pieces) :: w != ""
    ensures Joined(Words(pieces)) == "" <==> Words(pieces) == []
  {
    WordsAreNonEmpty(pieces);
    JoinIsNonEmpty(Words(pieces));
  }

  lemma WordsAreNonEmpty(pieces: seq<string>)
    ensures forall w | w in Words(pieces) :: w != ""
  {
  }

  lemma JoinIsNonEmpty(words: seq<string>)
    requires forall w | w in words :: w != ""
    ensures Joined(words) == "" <==> words == []
  {
    if |words| == 1 { assert words[0] in words; }
  }

  lemma JoinOneMore(words: seq<string>, w: string)
    ensures Joined(words + [w]) == if words == [] then w else Joined(words) + "-" + w
  {
    assert (words + [w])[..|words|] == words;
  }

  lemma LetterJoins(pieces: seq<string>, slug: string, pending: bool, c: char)
    requires Holds(pieces, slug, pending)
    ensures var more := pieces[..|pieces| - 1] + [pieces[|pieces| - 1] + [c]];
      Holds(more, (if pending && slug != "" then slug + "-" else slug) + [c], false)
  {
    var front, last := pieces[..|pieces| - 1], pieces[|pieces| - 1];
    var more := front + [last + [c]];
    assert more[..|more| - 1] == front;
    NonEmptyJoin(pieces);
    JoinOneMore(Words(front), last + [c]);
    if last != "" {
      JoinOneMore(Words(front), last);
      assert Words(pieces) == Words(front) + [last];
    }
  }

  lemma GapJoins(pieces: seq<string>)
    requires pieces != []
    ensures Words(pieces + [""]) == Words(pieces)
  {
    assert (pieces + [""])[..|pieces|] == pieces;
  }

  // ----- What a slug looks like

  /** Words of [a-z0-9] with single hyphens between them; the empty slug has no words. */
  predicate IsSlug(s: string) {
    && (forall i | 0 <= i < |s| :: IsPlain(s[i]) || s[i] == '-')
    && (forall i | 0 <= i < |s| && s[i] == '-' :: 0 < i < |s| - 1 && IsPlain(s[i - 1]) && IsPlain(s[i + 1]))
  }

  predicate PlainWord(w: string) { w != "" && forall i | 0 <= i < |w| :: IsPlain(w[i]) }

  lemma DeaccentIsPlain(c: char)
    ensures c in DEACCENT ==> IsPlain(DEACCENT[c])
    ensures IsPlain(c) ==> c !in DEACCENT
  {
  }

  lemma {:induction false} PiecesArePlain(realm: string, lower: char -> char)
    ensures forall w | w in Pieces(realm, lower) :: w == "" || PlainWord(w)
  {
    if realm == "" {
    } else {
      var front := realm[..|realm| - 1];
      PiecesArePlain(front, lower);
      var ps := Pieces(front, lower);
      assert ps[|ps| - 1] in ps;
      assert forall w | w in ps[..|ps| - 1] :: w in ps;
    }
  }

  lemma {:induction false} WordsArePlain(pieces: seq<string>)
    requires forall w | w in pieces :: w == "" || PlainWord(w)
    ensures forall w | w in Words(pieces) :: PlainWord(w)
  {
    if pieces == [] {
    } else {
      assert pieces[|pieces| - 1] in pieces;
      WordsArePlain(pieces[..|pieces| - 1]);
    }
  }

  lemma {:induction false} JoinedIsSlug(words: seq<string>)
    requires forall w | w in words :: PlainWord(w)
    ensures IsSlug(Joined(words))
    ensures words != [] ==> Joined(words) != "" && IsPlain(Joined(words)[|Joined(words)| - 1])
  {
    if |words| == 1 {
      assert words[0] in words;
    } else if words != [] {
      var front, last := words[..|words| - 1], words[|words| - 1];
      assert last in words;
      JoinedIsSlug(front);
      assert Joined(words) == Joined(front) + "-" + last;
    }
  }

  /** Whatever was typed, the slug is words of [a-z0-9] joined by single hyphens. */
  lemma SlugIsSlug(realm: string, lower: char -> char)
    ensures IsSlug(SlugOf(realm, lower))
  {
    PiecesArePlain(realm, lower);
    WordsArePlain(Pieces(realm, lower));
    JoinedIsSlug(Words(Pieces(realm, lower)));
  }

  // ----- Slugs are their own slugs

  /** A slug cut anywhere: its hyphens each follow a letter. */
  predicate SlugStart(s: string) {
    && (forall i | 0 <= i < |s| :: IsPlain(s[i]) || s[i] == '-')
    && (forall i | 0 <= i < |s| && s[i] == '-' :: 0 < i && IsPlain(s[i - 1]))
  }

  predicate EndsOpen(s: string) { s != "" && s[|s| - 1] == '-' }

  lemma PlainToken(c: char, lower: char -> char)
    requires LeavesPlainAlone(lower) && (IsPlain(c) || c == '-')
    ensures TokenOf(c, lower) == if c == '-' then Gap else Letter(c)
  {
    DeaccentIsPlain(c);
  }

  /** What is joined from a cut slug is the cut slug, but for a hyphen left at the end. */
  ghost predicate JoinsBack(s: string, ps: seq<string>) {
    && ps != []
    && Joined(Words(ps)) + (if EndsOpen(s) then "-" else "") == s
    && (s == "" || EndsOpen(s) <==> ps[|ps| - 1] == "")
  }

  lemma LetterJoinsBack(front: string, ps: seq<string>, c: char)
    requires SlugStart(front) && JoinsBack(front, ps) && IsPlain(c)
    ensures JoinsBack(front + [c], ps[..|ps| - 1] + [ps[|ps| - 1] + [c]])
  {
    LetterJoins(ps, Joined(Words(ps)), EndsOpen(front), c);
  }

  lemma HyphenJoinsBack(front: string, ps: seq<string>)
    requires SlugStart(front + "-") && JoinsBack(front, ps)
    ensures JoinsBack(front + "-", ps + [""])
  {
    var s := front + "-";
    assert s[|s| - 1] == '-' && IsPlain(s[|s| - 2]);
    GapJoins(ps);
  }

  lemma CharJoinsBack(front: string, c: char, ps: seq<string>, t: Token)
    requires SlugStart(front) && SlugStart(front + [c]) && JoinsBack(front, ps)
    requires t == if c == '-' then Gap else Letter(c)
    ensures JoinsBack(front + [c], Extended(ps, t))
  {
    if c == '-' {
      assert front + [c] == front + "-";
      HyphenJoinsBack(front, ps);
    } else {
      assert (front + [c])[|front|] == c;
      LetterJoinsBack(front, ps, c);
    }
  }

  lemma {:induction false} StartsKeep(s: string, lower: char -> char)
    requires SlugStart(s) && LeavesPlainAlone(lower)
    ensures JoinsBack(s, Pieces(s, lower))
  {
    if s == "" {
    } else {
      var front, c := s[..|s| - 1], s[|s| - 1];
      StartsKeep(front, lower);
      PlainToken(c, lower);
      assert s == front + [c];
      CharJoinsBack(front, c, Pieces(front, lower), TokenOf(c, lower));
    }
  }

  /** The slug leaves a realm alone exactly when the realm is a slug already. */
  lemma SlugsAreTheFixedPoints(realm: string, lower: char -> char)
    requires LeavesPlainAlone(lower)
    ensures SlugOf(realm, lower) == realm <==> IsSlug(realm)
  {
    SlugIsSlug(realm, lower);
    if IsSlug(realm) { StartsKeep(realm, lower); }
  }

  /** Normalising twice is normalising once. */
  lemma SlugIsIdempotent(realm: string, lower: char -> char)
    requires LeavesPlainAlone(lower)
    ensures SlugOf(SlugOf(realm, lower), lower) == SlugOf(realm, lower)
  {
    SlugIsSlug(realm, lower);
    SlugsAreTheFixedPoints(SlugOf(realm, lower), lower);
  }

  // ----- What each rune does, wherever it stands

  lemma PiecesGrow(s: string, c: char, lower: char -> char)
    ensures Pieces(s + [c], lower) == Extended(Pieces(s, lower), TokenOf(c, lower))
  {
    assert (s + [c])[..|s|] == s;
  }

  lemma {:induction false} SilentRune(a: string, c: char, b: string, lower: char -> char)
    requires TokenOf(c, lower).Nothing?
    ensures Pieces(a + [c] + b, lower) == Pieces(a + b, lower)
    decreases |b|
  {
    if b == "" {
      PiecesGrow(a, c, lower);
      assert a + [c] + b == a + [c] && a + b == a;
    } else {
      var front, last := b[..|b| - 1], b[|b| - 1];
      SilentRune(a, c, front, lower);
      PiecesGrow(a + [c] + front, last, lower);
      PiecesGrow(a + front, last, lower);
      assert a + [c] + b == a + [c] + front + [last] && a + b == a + front + [last];
    }
  }

  lemma {:induction false} LikeRunes(a: string, c: char, d: char, b: string, lower: char -> char)
    requires TokenOf(c, lower) == TokenOf(d, lower)
    ensures Pieces(a + [c] + b, lower) == Pieces(a + [d] + b, lower)
    decreases |b|
  {
    if b == "" {
      PiecesGrow(a, c, lower);
      PiecesGrow(a, d, lower);
      assert a + [c] + b == a + [c] && a + [d] + b == a + [d];
    } else {
      var front, last := b[..|b| - 1], b[|b| - 1];
      LikeRunes(a, c, d, front, lower);
      PiecesGrow(a + [c] + front, last, lower);
      PiecesGrow(a + [d] + front, last, lower);
      assert a + [c] + b == a + [c] + front + [last] && a + [d] + b == a + [d] + front + [last];
    }
  }

  lemma {:induction false} GapSplits(a: string, b: string, lower: char -> char)
    requires LeavesPlainAlone(lower)
    ensures Pieces(a + "-" + b, lower) == Pieces(a, lower) + Pieces(b, lower)
    decreases |b|
  {
    if b == "" {
      PlainToken('-', lower);
      PiecesGrow(a, '-', lower);
      assert a + "-" + b == a + "-";
    } else {
      var front, last := b[..|b| - 1], b[|b| - 1];
      GapSplits(a, front, lower);
      PiecesGrow(a + "-" + front, last, lower);
      PiecesGrow(front, last, lower);
      assert a + "-" + b == a + "-" + front + [last] && b == front + [last];
      ExtendedBehind(Pieces(a, lower), Pieces(front, lower), TokenOf(last, lower));
    }
  }

  lemma ExtendedBehind(ps: seq<string>, qs: seq<string>, t: Token)
    requires |qs| > 0
    ensures Extended(ps + qs, t) == ps + Extended(qs, t)
  {
  }

  lemma {:induction false} WordsSplit(ps: seq<string>, qs: seq<string>)
    ensures Words(ps + qs) == Words(ps) + Words(qs)
    decreases |qs|
  {
    if qs == [] {
      assert ps + qs == ps;
    } else {
      WordsSplit(ps, qs[..|qs| - 1]);
      assert (ps + qs)[..|ps + qs| - 1] == ps + qs[..|qs| - 1];
    }
  }

  /** An apostrophe, straight or curly, leaves no trace. */
  lemma ApostrophesVanish(a: string, c: char, b: string, lower: char -> char)
    requires lower(c) == '\'' || lower(c) == '\U{2019}'
    ensures SlugOf(a + [c] + b, lower) == SlugOf(a + b, lower)
  {
    SilentRune(a, c, b, lower);
  }

  /** Runes with one lower case read alike. */
  lemma CaseIsFolded(a: string, c: char, d: char, b: string, lower: char -> char)
    requires lower(c) == lower(d)
    ensures SlugOf(a + [c] + b, lower) == SlugOf(a + [d] + b, lower)
  {
    LikeRunes(a, c, d, b, lower);
  }

  predicate AccentOf(c: char, base: char) {
    || (base == 'a' && c in ['\U{E1}', '\U{E0}', '\U{E2}', '\U{E4}', '\U{E3}', '\U{E5}'])
    || (base == 'e' && c in ['\U{E9}', '\U{E8}', '\U{EA}', '\U{EB}'])
    || (base == 'i' && c in ['\U{ED}', '\U{EC}', '\U{EE}', '\U{EF}'])
    || (base == 'o' && c in ['\U{F3}', '\U{F2}', '\U{F4}', '\U{F6}', '\U{F5}'])
    || (base == 'u' && c in ['\U{FA}', '\U{F9}', '\U{FB}', '\U{FC}'])
    || (base == 'n' && c == '\U{F1}') || (base == 'c' && c == '\U{E7}')
    || (base == 'y' && (c == '\U{FD}' || c == '\U{FF}'))
  }

  lemma AccentsFold(c: char, base: char)
    requires AccentOf(c, base)
    ensures Folded(c) == base && !IsApostrophe(c)
  {
  }

  /** An accented letter reads as the letter under the accent. */
  lemma AccentsAreDropped(a: string, c: char, base: char, b: string, lower: char -> char)
    requires LeavesPlainAlone(lower) && AccentOf(lower(c), base)
    ensures SlugOf(a + [c] + b, lower) == SlugOf(a + [base] + b, lower)
  {
    AccentsFold(lower(c), base);
    PlainToken(base, lower);
    LikeRunes(a, c, base, b, lower);
  }

  /** Whatever is no letter, digit, accent or apostrophe reads as a hyphen. */
  lemma TheRestReadsAsHyphens(a: string, c: char, b: string, lower: char -> char)
    requires LeavesPlainAlone(lower)
    requires !('a' <= lower(c) <= 'z') && !('0' <= lower(c) <= '9')
    requires lower(c) != '\'' && lower(c) != '\U{2019}'
    requires forall base :: !AccentOf(lower(c), base)
    ensures SlugOf(a + [c] + b, lower) == SlugOf(a + "-" + b, lower)
  {
    UnfoldedUnlessAccented(lower(c));
    PlainToken('-', lower);
    LikeRunes(a, c, '-', b, lower);
  }

  lemma UnfoldedUnlessAccented(c: char)
    requires forall base :: !AccentOf(c, base)
    ensures Folded(c) == c
  {
    if c in DEACCENT { assert AccentOf(c, DEACCENT[c]); }
  }

  /** Hyphens in a row are one, and none leads or trails. With the lemmas above and the fixed
      points this is all there is to a slug: they rewrite any realm to the slug it has. */
  lemma HyphensCollapse(a: string, b: string, lower: char -> char)
    requires LeavesPlainAlone(lower)
    ensures SlugOf(a + "-" + "-" + b, lower) == SlugOf(a + "-" + b, lower)
    ensures SlugOf("-" + a, lower) == SlugOf(a, lower) == SlugOf(a + "-", lower)
  {
    var none, first, second := [""], Pieces(a, lower), Pieces(b, lower);
    assert Pieces("", lower) == none && Words(none) == [];
    GapSplits(a, "", lower);
    assert a + "-" + "" == a + "-";
    GapSplits(a + "-", b, lower);
    GapSplits(a, b, lower);
    GapSplits("", a, lower);
    assert "" + "-" + a == "-" + a;
    WordsSplit(first, none);
    WordsSplit(none, first);
    WordsSplit(first + none, second);
    WordsSplit(first, second);
    assert Words(first) + [] == Words(first) && [] + Words(first) == Words(first);
  }
}
