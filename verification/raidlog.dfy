/** internal/raidlog/match.go and read.go: who in a log is who on the roster, and the turnout
    worked out when it is fetched and again when it is read back. */
module RaidLog {
  import opened Options
  import opened Sequences
  import opened Slug

  type CharacterId = int

  datatype Character = Character(id: CharacterId, name: string, realm: string)
  datatype Actor = Actor(id: int, name: string, server: string)

  /** None is nobody on the roster: a pug, a trial, or the wrong report. */
  datatype Matched = Matched(actor: Actor, character: Option<CharacterId>)

  function Lowered(s: string, lower: char -> char): string {
    seq(|s|, i requires 0 <= i < |s| => lower(s[i]))
  }

  // ----- Matching

  function Key(name: string, realm: string): string { name + "\0" + realm }

  /** No two (name, realm slug) pairs share a key, whatever a name contains: the last NUL of a
      key is the one between its parts. */
  lemma KeysAreInjective(n1: string, r1: string, n2: string, r2: string)
    requires IsSlug(r1) && IsSlug(r2)
    ensures Key(n1, r1) == Key(n2, r2) <==> n1 == n2 && r1 == r2
  {
    if Key(n1, r1) == Key(n2, r2) {
      NameEndsAtLastNul(n1, r1, n2, r2);
      NameEndsAtLastNul(n2, r2, n1, r1);
      KeySplits(n1, r1);
      KeySplits(n2, r2);
    }
  }

  lemma NameEndsAtLastNul(n1: string, r1: string, n2: string, r2: string)
    requires IsSlug(r1) && Key(n1, r1) == Key(n2, r2)
    ensures |n2| <= |n1|
  {
    var k := Key(n1, r1);
    assert forall i | |n1| < i < |k| :: k[i] == r1[i - |n1| - 1];
    assert Key(n2, r2)[|n2|] == '\0';
  }

  lemma KeySplits(n: string, r: string)
    ensures Key(n, r)[..|n|] == n && Key(n, r)[|n| + 1..] == r
  {
  }

  predicate SameName(c: Character, a: Actor, lower: char -> char) { Lowered(c.name, lower) == Lowered(a.name, lower) }

  predicate SameNameRealm(c: Character, a: Actor, lower: char -> char) {
    SameName(c, a, lower) && SlugOf(c.realm, lower) == SlugOf(a.server, lower)
  }

  function ByName(a: Actor, lower: char -> char): Character -> Option<Character> {
    (c: Character) => if SameName(c, a, lower) then Some(c) else None
  }

  function ByNameRealm(a: Actor, lower: char -> char): Character -> Option<Character> {
    (c: Character) => if SameNameRealm(c, a, lower) then Some(c) else None
  }

  function Only(hits: seq<Character>): Option<Character> { if |hits| == 1 then Some(hits[0]) else None }

  /** Scanning the roster: the one with this name and realm, else the one with this name. */
  function MatchOne(a: Actor, characters: seq<Character>, lower: char -> char): Option<CharacterId> {
    var exact := Only(FilterMap(characters, ByNameRealm(a, lower)));
    var found := if exact.Some? then exact else Only(FilterMap(characters, ByName(a, lower)));
    if found.None? then None else Some(found.value.id)
  }

  function MatchAll(actors: seq<Actor>, characters: seq<Character>, lower: char -> char): seq<Matched> {
    seq(|actors|, i requires 0 <= i < |actors| => Matched(actors[i], MatchOne(actors[i], characters, lower)))
  }

  type Index = map<string, seq<Character>>

  function At(index: Index, key: string): seq<Character> { if key in index then index[key] else [] }

  function Put(index: Index, key: string, c: Character): Index { index[key := At(index, key) + [c]] }

  function NameKey(lower: char -> char): Character -> string {
    (c: Character) => Lowered(c.name, lower)
  }

  function NameRealmKey(lower: char -> char): Character -> string {
    (c: Character) => Key(Lowered(c.name, lower), SlugOf(c.realm, lower))
  }

  function Keyed(key: string, keyOf: Character -> string): Character -> Option<Character> {
    (c: Character) => if keyOf(c) == key then Some(c) else None
  }

  /** The index files every character under its key, in roster order. */
  ghost predicate Indexes(index: Index, characters: seq<Character>, keyOf: Character -> string) {
    forall key :: At(index, key) == FilterMap(characters, Keyed(key, keyOf))
  }

  lemma IndexGrows(index: Index, characters: seq<Character>, i: nat, keyOf: Character -> string)
    requires i < |characters| && Indexes(index, characters[..i], keyOf)
    ensures Indexes(Put(index, keyOf(characters[i]), characters[i]), characters[..i + 1], keyOf)
  {
    var c := characters[i];
    forall key ensures At(Put(index, keyOf(c), c), key) == FilterMap(characters[..i + 1], Keyed(key, keyOf)) {
      FilterMapStep(characters, i, Keyed(key, keyOf));
    }
  }

  method BuildIndexes(characters: seq<Character>, lower: char -> char) returns (byNameRealm: Index, byName: Index)
    ensures Indexes(byNameRealm, characters, NameRealmKey(lower)) && Indexes(byName, characters, NameKey(lower))
  {
    byNameRealm, byName := map[], map[];
    for i := 0 to |characters|
      invariant Indexes(byNameRealm, characters[..i], NameRealmKey(lower))
      invariant Indexes(byName, characters[..i], NameKey(lower))
    {
      var c := characters[i];
      IndexGrows(byNameRealm, characters, i, NameRealmKey(lower));
      IndexGrows(byName, characters, i, NameKey(lower));
      var name := Lowered(c.name, lower);
      var realm := RealmSlug(c.realm, lower);
      byNameRealm := Put(byNameRealm, Key(name, realm), c);
      byName := Put(byName, name, c);
    }
    assert characters[..|characters|] == characters;
  }

  /** The two indexes answer what scanning the whole roster for each actor would. */
  method Match(actors: seq<Actor>, characters: seq<Character>, lower: char -> char) returns (matched: seq<Matched>)
    ensures matched == MatchAll(actors, characters, lower)
  {
    var byNameRealm, byName := BuildIndexes(characters, lower);
    matched := [];
    for i := 0 to |actors|
      invariant |matched| == i
      invariant forall j | 0 <= j < i :: matched[j] == Matched(actors[j], MatchOne(actors[j], characters, lower))
    {
      var id := LookUp(actors[i], byNameRealm, byName, characters, lower);
      matched := matched + [Matched(actors[i], id)];
    }
  }

  /** Name and realm together, then the name alone. */
  method LookUp(a: Actor, byNameRealm: Index, byName: Index, ghost characters: seq<Character>, lower: char -> char)
    returns (id: Option<CharacterId>)
    requires Indexes(byNameRealm, characters, NameRealmKey(lower)) && Indexes(byName, characters, NameKey(lower))
    ensures id == MatchOne(a, characters, lower)
  {
    LookupIsScan(byNameRealm, byName, characters, a, lower);
    var name := Lowered(a.name, lower);
    var realm := RealmSlug(a.server, lower);
    var found := Only(At(byNameRealm, Key(name, realm)));
    if found.None? { found := Only(At(byName, name)); }
    return if found.None? then None else Some(found.value.id);
  }

  lemma LookupIsScan(byNameRealm: Index, byName: Index, characters: seq<Character>, a: Actor, lower: char -> char)
    requires Indexes(byNameRealm, characters, NameRealmKey(lower)) && Indexes(byName, characters, NameKey(lower))
    ensures var name := Lowered(a.name, lower);
      var exact := Only(At(byNameRealm, Key(name, SlugOf(a.server, lower))));
      var found := if exact.Some? then exact else Only(At(byName, name));
      MatchOne(a, characters, lower) == if found.None? then None else Some(found.value.id)
  {
    IndexIsScan(characters, a, lower);
  }

  lemma {:induction false} FilterMapAlike<A(!new), B>(xs: seq<A>, f: A -> Option<B>, g: A -> Option<B>)
    requires forall x :: f(x) == g(x)
    ensures FilterMap(xs, f) == FilterMap(xs, g)
  {
    if xs == [] {
    } else {
      FilterMapAlike(xs[..|xs| - 1], f, g);
    }
  }

  lemma IndexIsScan(characters: seq<Character>, a: Actor, lower: char -> char)
    ensures FilterMap(characters, Keyed(Key(Lowered(a.name, lower), SlugOf(a.server, lower)), NameRealmKey(lower)))
         == FilterMap(characters, ByNameRealm(a, lower))
    ensures FilterMap(characters, Keyed(Lowered(a.name, lower), NameKey(lower)))
         == FilterMap(characters, ByName(a, lower))
  {
    var key := Key(Lowered(a.name, lower), SlugOf(a.server, lower));
    forall c ensures Keyed(key, NameRealmKey(lower))(c) == ByNameRealm(a, lower)(c) {
      SlugIsSlug(c.realm, lower);
      SlugIsSlug(a.server, lower);
      KeysAreInjective(Lowered(c.name, lower), SlugOf(c.realm, lower), Lowered(a.name, lower), SlugOf(a.server, lower));
    }
    FilterMapAlike(characters, Keyed(key, NameRealmKey(lower)), ByNameRealm(a, lower));
    FilterMapAlike(characters, Keyed(Lowered(a.name, lower), NameKey(lower)), ByName(a, lower));
  }

  /** f keeps the i-th character and no other. */
  ghost predicate KeepsOnly(characters: seq<Character>, f: Character -> Option<Character>, i: int) {
    0 <= i < |characters| && forall j | 0 <= j < |characters| :: f(characters[j]).Some? <==> j == i
  }

  predicate Selects(f: Character -> Option<Character>, c: Character) { f(c) == None || f(c) == Some(c) }

  lemma {:induction false} NoneKept(characters: seq<Character>, f: Character -> Option<Character>)
    ensures FilterMap(characters, f) == [] <==> forall j | 0 <= j < |characters| :: f(characters[j]).None?
  {
    if characters == [] {
    } else {
      NoneKept(characters[..|characters| - 1], f);
    }
  }

  lemma {:induction false} AloneIsKept(characters: seq<Character>, f: Character -> Option<Character>, i: int)
    requires KeepsOnly(characters, f, i) && Selects(f, characters[i])
    ensures FilterMap(characters, f) == [characters[i]]
  {
    var front, last := characters[..|characters| - 1], |characters| - 1;
    if i < last {
      AloneIsKept(front, f, i);
    } else {
      NoneKept(front, f);
    }
  }

  lemma {:induction false} KeptIsAlone(characters: seq<Character>, f: Character -> Option<Character>) returns (i: int)
    requires |FilterMap(characters, f)| == 1
    ensures KeepsOnly(characters, f, i)
  {
    var front, last := characters[..|characters| - 1], |characters| - 1;
    if f(characters[last]).Some? {
      NoneKept(front, f);
      i := last;
    } else {
      i := KeptIsAlone(front, f);
    }
  }

  lemma OnlyIsAlone(characters: seq<Character>, f: Character -> Option<Character>, c: Character)
    requires forall x | x in characters :: Selects(f, x)
    ensures Only(FilterMap(characters, f)) == Some(c) <==> exists i :: KeepsOnly(characters, f, i) && characters[i] == c
  {
    if i :| KeepsOnly(characters, f, i) && characters[i] == c { AloneIsKept(characters, f, i); }
    if Only(FilterMap(characters, f)) == Some(c) {
      var i := KeptIsAlone(characters, f);
      AloneIsKept(characters, f, i);
    }
  }

  /** c is the one character f keeps. */
  ghost predicate IsOnlyOne(characters: seq<Character>, f: Character -> Option<Character>, c: Character) {
    exists i :: KeepsOnly(characters, f, i) && characters[i] == c
  }

  lemma ExactIsNamed(characters: seq<Character>, a: Actor, lower: char -> char, c: Character, d: Character)
    requires IsOnlyOne(characters, ByNameRealm(a, lower), c) && IsOnlyOne(characters, ByName(a, lower), d)
    ensures c == d
  {
    var i :| KeepsOnly(characters, ByNameRealm(a, lower), i) && characters[i] == c;
    var j :| KeepsOnly(characters, ByName(a, lower), j) && characters[j] == d;
    assert ByNameRealm(a, lower)(c).Some? && ByName(a, lower)(c).Some?;
  }

  /** A match is a unique answer: the character alone in having this name and realm, or alone
      in having this name. Anything ambiguous is nobody. */
  lemma MatchIsTheUniqueAnswer(a: Actor, characters: seq<Character>, lower: char -> char, id: CharacterId)
    ensures MatchOne(a, characters, lower) == Some(id)
        <==> exists c: Character ::
               c.id == id
               && (IsOnlyOne(characters, ByNameRealm(a, lower), c) || IsOnlyOne(characters, ByName(a, lower), c))
  {
    var exactly, byName := ByNameRealm(a, lower), ByName(a, lower);
    forall c ensures Only(FilterMap(characters, exactly)) == Some(c) <==> IsOnlyOne(characters, exactly, c) {
      OnlyIsAlone(characters, ByNameRealm(a, lower), c);
    }
    forall c ensures Only(FilterMap(characters, byName)) == Some(c) <==> IsOnlyOne(characters, byName, c) {
      OnlyIsAlone(characters, ByName(a, lower), c);
    }
    var exact, named := Only(FilterMap(characters, exactly)), Only(FilterMap(characters, byName));
    if exact.Some? && named.Some? { ExactIsNamed(characters, a, lower, exact.value, named.value); }
  }

  lemma OnlyIgnoresOrder(xs: seq<Character>, ys: seq<Character>)
    requires multiset(xs) == multiset(ys)
    ensures Only(xs) == Only(ys)
  {
    assert |multiset(xs)| == |multiset(ys)|;
    if |xs| == 1 {
      assert xs[0] in multiset(ys);
    }
  }

  /** The order the roster is read in decides nothing. */
  lemma MatchIgnoresRosterOrder(
      actors: seq<Actor>, characters: seq<Character>, shuffled: seq<Character>, lower: char -> char)
    requires multiset(characters) == multiset(shuffled)
    ensures MatchAll(actors, characters, lower) == MatchAll(actors, shuffled, lower)
  {
    forall i | 0 <= i < |actors|
      ensures MatchOne(actors[i], characters, lower) == MatchOne(actors[i], shuffled, lower)
    {
      var a := actors[i];
      FilterMapPermutes(characters, shuffled, ByNameRealm(a, lower));
      FilterMapPermutes(characters, shuffled, ByName(a, lower));
      OnlyIgnoresOrder(FilterMap(characters, ByNameRealm(a, lower)), FilterMap(shuffled, ByNameRealm(a, lower)));
      OnlyIgnoresOrder(FilterMap(characters, ByName(a, lower)), FilterMap(shuffled, ByName(a, lower)));
    }
  }

  // ----- Turnout

  datatype Turnout = Turnout(attended: seq<CharacterId>, missing: seq<CharacterId>, unknown: nat, overlap: real)

  /** Each character once, where they first appear. */
  function FirstSeen(found: seq<Option<CharacterId>>): seq<CharacterId> {
    if found == [] then []
    else
      var before := FirstSeen(found[..|found| - 1]);
      match found[|found| - 1]
      case None => before
      case Some(id) => if id in before then before else before + [id]
  }

  function CountUnknown(found: seq<Option<CharacterId>>): nat { multiset(found)[None] }

  function NotIn(seen: seq<CharacterId>): CharacterId -> Option<CharacterId> {
    (id: CharacterId) => if id in seen then None else Some(id)
  }

  function TurnoutOf(found: seq<Option<CharacterId>>, expected: seq<CharacterId>): Turnout {
    var attended := FirstSeen(found);
    UnknownAtMost(found);
    Turnout(attended, FilterMap(expected, NotIn(attended)), CountUnknown(found),
            if found == [] then 0.0 else (|found| - CountUnknown(found)) as real / |found| as real)
  }

  lemma UnknownAtMost(found: seq<Option<CharacterId>>)
    ensures CountUnknown(found) <= |found|
  {
    assert |multiset(found)| == |found|;
    var unknown := multiset{None}[None := CountUnknown(found)];
    assert multiset(found) == (multiset(found) - unknown) + unknown;
  }

  /** Walks the found characters once, then the expected ones. */
  method Tally(found: seq<Option<CharacterId>>, expected: seq<CharacterId>)
    returns (attended: seq<CharacterId>, missing: seq<CharacterId>, unknown: nat)
    ensures attended == FirstSeen(found) && missing == FilterMap(expected, NotIn(attended))
          && unknown == CountUnknown(found)
  {
    var seen: set<CharacterId>;
    attended, unknown, seen := TallyFound(found);
    missing := [];
    ghost var absent := NotIn(attended);
    for i := 0 to |expected|
      invariant missing == FilterMap(expected[..i], absent)
    {
      FilterMapStep(expected, i, absent);
      var id := expected[i];
      assert id in seen <==> id in attended;
      if id !in seen { missing := missing + [id]; }
    }
    assert expected[..|expected|] == expected;
  }

  method TallyFound(found: seq<Option<CharacterId>>)
    returns (attended: seq<CharacterId>, unknown: nat, seen: set<CharacterId>)
    ensures attended == FirstSeen(found) && unknown == CountUnknown(found)
    ensures forall id :: id in seen <==> id in attended
  {
    attended, unknown, seen := [], 0, {};
    for i := 0 to |found|
      invariant attended == FirstSeen(found[..i]) && unknown == CountUnknown(found[..i])
      invariant forall id :: id in seen <==> id in attended
    {
      assert found[..i + 1][..i] == found[..i] && found[..i + 1] == found[..i] + [found[i]];
      if found[i].None? {
        unknown := unknown + 1;
        continue;
      }
      var id := found[i].value;
      assert id in seen <==> id in attended;
      if id !in seen {
        seen := seen + {id};
        attended := attended + [id];
      }
    }
    assert found[..|found|] == found;
  }

  function FoundIn(matched: seq<Matched>): seq<Option<CharacterId>> {
    seq(|matched|, i requires 0 <= i < |matched| => matched[i].character)
  }

  /** Works the turnout out from a freshly matched log. */
  method Reckon(matched: seq<Matched>, expected: seq<CharacterId>) returns (turnout: Turnout)
    ensures turnout == TurnoutOf(FoundIn(matched), expected)
  {
    var attended, missing, unknown := Tally(FoundIn(matched), expected);
    UnknownAtMost(FoundIn(matched));
    turnout := Turnout(attended, missing, unknown, 0.0);
    if |matched| > 0 { turnout := turnout.(overlap := (|matched| - unknown) as real / |matched| as real); }
  }

  // ----- Storing and reading back

  type RaiderRows = map<int, Matched>

  /** One row per actor id; a second one replaces the first. */
  function StoredRows(matched: seq<Matched>): RaiderRows {
    if matched == [] then map[]
    else StoredRows(matched[..|matched| - 1])[matched[|matched| - 1].actor.id := matched[|matched| - 1]]
  }

  method StoreRaiders(matched: seq<Matched>) returns (rows: RaiderRows)
    ensures rows == StoredRows(matched)
  {
    rows := map[];
    for i := 0 to |matched|
      invariant rows == StoredRows(matched[..i])
    {
      assert matched[..i + 1][..i] == matched[..i];
      rows := rows[matched[i].actor.id := matched[i]];
    }
    assert matched[..|matched|] == matched;
  }

  /** Rebuilds the turnout from the rows as some query lists them. */
  method Report(listed: seq<Matched>, expected: seq<CharacterId>) returns (turnout: Turnout)
    ensures turnout == TurnoutOf(FoundIn(listed), expected)
  {
    var attended, missing, unknown := Tally(FoundIn(listed), expected);
    UnknownAtMost(FoundIn(listed));
    turnout := Turnout(attended, missing, unknown, 0.0);
    if |listed| > 0 {
      var matched := |listed| - unknown;
      turnout := turnout.(overlap := matched as real / |listed| as real);
    }
  }

  ghost predicate IsListing(rows: RaiderRows, listed: seq<Matched>) {
    NoDup(listed) && forall m :: m in listed <==> m.actor.id in rows && rows[m.actor.id] == m
  }

  /** A log names each of its actors by an id of their own. */
  ghost predicate DistinctActors(matched: seq<Matched>) {
    forall i, j | 0 <= i < j < |matched| :: matched[i].actor.id != matched[j].actor.id
  }

  lemma {:induction false} StoredRowsHold(matched: seq<Matched>, m: Matched)
    requires DistinctActors(matched)
    ensures m in matched <==> m.actor.id in StoredRows(matched) && StoredRows(matched)[m.actor.id] == m
    ensures m.actor.id in StoredRows(matched) ==> exists i :: 0 <= i < |matched| && matched[i].actor.id == m.actor.id
  {
    if matched == [] {
    } else {
      var front, last := matched[..|matched| - 1], matched[|matched| - 1];
      StoredRowsHold(front, m);
      assert m in matched <==> m in front || m == last;
      if m in front {
        var i :| 0 <= i < |front| && front[i] == m;
        assert matched[i].actor.id != last.actor.id;
      }
      if m.actor.id in StoredRows(front) {
        var i :| 0 <= i < |front| && front[i].actor.id == m.actor.id;
        assert matched[i] == front[i];
      }
    }
  }

  lemma ListingPermutesTheLog(matched: seq<Matched>, listed: seq<Matched>)
    requires DistinctActors(matched) && IsListing(StoredRows(matched), listed)
    ensures multiset(listed) == multiset(matched)
  {
    forall m ensures m in listed <==> m in matched { StoredRowsHold(matched, m); }
    SameElementsPermute(listed, matched);
  }

  lemma {:induction false} FoundIsFilter(matched: seq<Matched>)
    ensures FoundIn(matched) == FilterMap(matched, (m: Matched) => Some(m.character))
  {
    if matched == [] {
    } else {
      FoundIsFilter(matched[..|matched| - 1]);
      assert FoundIn(matched) == FoundIn(matched[..|matched| - 1]) + [matched[|matched| - 1].character];
    }
  }

  lemma {:induction false} FirstSeenIsEveryoneOnce(found: seq<Option<CharacterId>>)
    ensures forall id :: id in FirstSeen(found) <==> Some(id) in found
    ensures NoDup(FirstSeen(found))
  {
    if found == [] {
    } else {
      FirstSeenIsEveryoneOnce(found[..|found| - 1]);
      assert forall x :: x in found <==> x in found[..|found| - 1] || x == found[|found| - 1];
    }
  }

  /** The same people, each once, and the same numbers, in whatever order. */
  ghost predicate SameTurnout(a: Turnout, b: Turnout) {
    && NoDup(a.attended) && NoDup(b.attended) && (forall id :: id in a.attended <==> id in b.attended)
    && multiset(a.missing) == multiset(b.missing)
    && a.unknown == b.unknown && a.overlap == b.overlap
  }

  lemma TurnoutIgnoresOrder(
      p: seq<Option<CharacterId>>, q: seq<Option<CharacterId>>, expected: seq<CharacterId>, relisted: seq<CharacterId>)
    requires multiset(p) == multiset(q) && multiset(expected) == multiset(relisted)
    ensures SameTurnout(TurnoutOf(p, expected), TurnoutOf(q, relisted))
  {
    FirstSeenIsEveryoneOnce(p);
    FirstSeenIsEveryoneOnce(q);
    assert |multiset(p)| == |multiset(q)|;
    forall id: CharacterId ensures id in FirstSeen(p) <==> id in FirstSeen(q) {
      assert Some(id) in p <==> Some(id) in multiset(p);
      assert Some(id) in q <==> Some(id) in multiset(q);
    }
    FilterMapPermutes(expected, relisted, NotIn(FirstSeen(p)));
    FilterMapAlike(relisted, NotIn(FirstSeen(p)), NotIn(FirstSeen(q)));
  }

  /** The turnout read back is the one reckoned when the log was fetched: same attended, same
      missing, same unknown count, same overlap, in whatever order either is read. */
  lemma {:induction false} ReadBackAgrees(
      matched: seq<Matched>, listed: seq<Matched>, expected: seq<CharacterId>, relisted: seq<CharacterId>)
    requires DistinctActors(matched) && IsListing(StoredRows(matched), listed)
    requires multiset(expected) == multiset(relisted)
    ensures SameTurnout(TurnoutOf(FoundIn(matched), expected), TurnoutOf(FoundIn(listed), relisted))
  {
    ListingPermutesTheLog(matched, listed);
    FilterMapPermutes(matched, listed, (m: Matched) => Some(m.character));
    FoundIsFilter(matched);
    FoundIsFilter(listed);
    TurnoutIgnoresOrder(FoundIn(matched), FoundIn(listed), expected, relisted);
  }

  /** Attended and unknown partition the log, and missing is exactly the expected who did not
      attend. */
  lemma TurnoutAccountsForEveryone(found: seq<Option<CharacterId>>, expected: seq<CharacterId>, id: CharacterId)
    ensures var t := TurnoutOf(found, expected);
      && (id in t.attended <==> Some(id) in found)
      && (id in t.missing <==> id in expected && id !in t.attended)
      && 0.0 <= t.overlap <= 1.0
      && (t.overlap == 1.0 <==> found != [] && None !in found)
  {
    FirstSeenIsEveryoneOnce(found);
    FilterMapIn(expected, NotIn(FirstSeen(found)), id);
    UnknownAtMost(found);
    assert None in found <==> None in multiset(found);
    if found != [] { Quotient(|found| - CountUnknown(found), |found|); }
  }

  lemma Quotient(a: int, b: int)
    requires 0 <= a <= b && 0 < b
    ensures 0.0 <= a as real / b as real <= 1.0
    ensures a as real / b as real == 1.0 <==> a == b
  {
    if a < b { assert a as real / b as real < 1.0; }
  }

  lemma {:induction false} UnknownIsASet(found: seq<Option<CharacterId>>)
    ensures CountUnknown(found) == |set i | 0 <= i < |found| && found[i].None?|
  {
    var all := set i | 0 <= i < |found| && found[i].None?;
    if found == [] {
      assert all == {};
    } else {
      var n := |found| - 1;
      var front := found[..n];
      UnknownIsASet(front);
      assert found == front + [found[n]];
      var before := set i | 0 <= i < n && front[i].None?;
      assert all == if found[n].None? then before + {n} else before;
    }
  }

  lemma {:induction false} MissingKeepsCopies(expected: seq<CharacterId>, seen: seq<CharacterId>, id: CharacterId)
    ensures multiset(FilterMap(expected, NotIn(seen)))[id] == if id in seen then 0 else multiset(expected)[id]
  {
    if expected == [] {
    } else {
      var front, last := expected[..|expected| - 1], expected[|expected| - 1];
      MissingKeepsCopies(front, seen, id);
      assert expected == front + [last];
    }
  }

  /** The numbers of a turnout: nobody attends twice, the unknown are the actors nobody is, the
      overlap is the share of the others, and whoever is missing is missing as often as expected. */
  lemma TurnoutNumbers(found: seq<Option<CharacterId>>, expected: seq<CharacterId>, id: CharacterId)
    ensures var t := TurnoutOf(found, expected);
      var unknown := |set i | 0 <= i < |found| && found[i].None?|;
      && NoDup(t.attended) && t.unknown == unknown
      && (found == [] ==> t.overlap == 0.0)
      && (found != [] ==> t.overlap * |found| as real == (|found| - unknown) as real)
      && multiset(t.missing)[id] == if Some(id) in found then 0 else multiset(expected)[id]
  {
    FirstSeenIsEveryoneOnce(found);
    UnknownIsASet(found);
    MissingKeepsCopies(expected, FirstSeen(found), id);
  }
}
