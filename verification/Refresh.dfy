/** Refresh tokens (core/refresh.py, core/db/refresh_tokens.py). A token's value stands for its hash. */
module Refresh {
  import opened Wrappers

  type Value = nat
  type Family = nat
  type User = nat

  datatype Token = Token(
    user: User, family: Family, issuedAt: int, expiresAt: int, usedAt: Option<int>, revokedAt: Option<int>)

  datatype Failure = UNKNOWN | EXPIRED | REVOKED | REUSED
  datatype Answer = Issued(value: Value, expiresAt: int, user: User, family: Family) | Refused(failure: Failure)

  /** What a sign-in was granted. */
  datatype Grant = Grant(user: User, expiresAt: int)

  /** What was ever issued, for the proofs: each value's family, and each family's last value and sign-in. */
  datatype Past = Past(familyOf: map<Value, Family>, latest: map<Family, Value>, granted: map<Family, Grant>)

  /** The table and its past. */
  datatype Book = Book(tokens: map<Value, Token>, past: Past)

  const EMPTY: Book := Book(map[], Past(map[], map[], map[]))

  // ----- The operations on a book --------------------------------------------------------

  function WithToken(book: Book, user: User, family: Family, value: Value, now: int, expiresAt: int): Book {
    Book(
      book.tokens[value := Token(user, family, now, expiresAt, None, None)],
      Past(
        book.past.familyOf[value := family],
        book.past.latest[family := value],
        if family in book.past.granted then book.past.granted else book.past.granted[family := Grant(user, expiresAt)]))
  }

  function FamilyRevoked(book: Book, family: Family, now: int): Book {
    book.(tokens := map h | h in book.tokens ::
      if book.tokens[h].family == family && book.tokens[h].revokedAt.None?
      then book.tokens[h].(revokedAt := Some(now)) else book.tokens[h])
  }

  /** The refusal a presented token meets, if any. */
  function Refusal(book: Book, presented: Value, now: int): Option<Failure> {
    if presented !in book.tokens then Some(UNKNOWN)
    else
      var t := book.tokens[presented];
      if t.revokedAt.Some? then Some(REVOKED)
      else if t.usedAt.Some? then Some(REUSED)
      else if t.expiresAt <= now then Some(EXPIRED)
      else None
  }

  predicate Accepts(book: Book, presented: Value, now: int) {
    Refusal(book, presented, now).None?
  }

  /** The book after `rotate`. A refusal changes nothing, except that a reuse revokes the family. */
  function Rotated(book: Book, presented: Value, value: Value, now: int): Book {
    if Refusal(book, presented, now) == Some(REUSED) then FamilyRevoked(book, book.tokens[presented].family, now)
    else if !Accepts(book, presented, now) then book
    else
      var t := book.tokens[presented];
      WithToken(book.(tokens := book.tokens[presented := t.(usedAt := Some(now))]), t.user, t.family, value, now,
        t.expiresAt)
  }

  function LoggedOut(book: Book, presented: Value, now: int): Book {
    if presented in book.tokens then FamilyRevoked(book, book.tokens[presented].family, now) else book
  }

  function Swept(book: Book, before: int): Book {
    book.(tokens := map h | h in book.tokens && !(book.tokens[h].expiresAt < before) :: book.tokens[h])
  }

  // ----- What every book keeps ---------------------------------------------------------------

  /** A stored token agrees with its family: one user, one expiry, revoked together, and unused only if
      it is the last one issued. */
  ghost predicate Fits(book: Book, h: Value)
    requires h in book.tokens
  {
    var t, past := book.tokens[h], book.past;
    && h in past.familyOf && past.familyOf[h] == t.family
    && t.family in past.latest && t.family in past.granted && past.granted[t.family] == Grant(t.user, t.expiresAt)
    && past.latest[t.family] in book.tokens
    && var last := book.tokens[past.latest[t.family]];
       && last.family == t.family && last.revokedAt.Some? == t.revokedAt.Some?
       && (t.usedAt.None? <==> h == past.latest[t.family])
  }

  ghost predicate Inv(book: Book) {
    && (forall h :: h in book.tokens ==> Fits(book, h))
    && book.past.latest.Keys == book.past.granted.Keys
    && (forall h :: h in book.past.familyOf ==>
      var f := book.past.familyOf[h];
      && f in book.past.latest && book.past.latest[f] in book.past.familyOf
      && book.past.familyOf[book.past.latest[f]] == f
      && (h in book.tokens <==> book.past.latest[f] in book.tokens))
  }

  function Answered(book: Book, presented: Value, value: Value, now: int): Answer {
    if Accepts(book, presented, now)
    then Issued(value, book.tokens[presented].expiresAt, book.tokens[presented].user, book.tokens[presented].family)
    else Refused(Refusal(book, presented, now).value)
  }

  /** Neither used nor revoked. */
  predicate Live(t: Token) {
    t.usedAt.None? && t.revokedAt.None?
  }

  /** A family has one token at most neither used nor revoked, and one expiry. */
  lemma OneLiveToken(book: Book, g: Value, h: Value)
    requires Inv(book) && g in book.tokens && h in book.tokens && book.tokens[g].family == book.tokens[h].family
    ensures book.tokens[g].expiresAt == book.tokens[h].expiresAt && book.tokens[g].user == book.tokens[h].user
    ensures Live(book.tokens[g]) && Live(book.tokens[h]) ==> g == h
    ensures book.tokens[g].revokedAt.Some? == book.tokens[h].revokedAt.Some?
  {
    assert Fits(book, g) && Fits(book, h);
  }

  /** The sweep takes a family whole, or leaves it whole. */
  lemma SweepTakesFamilies(book: Book, before: int, g: Value, h: Value)
    requires Inv(book) && g in book.past.familyOf && h in book.past.familyOf
    requires book.past.familyOf[g] == book.past.familyOf[h]
    ensures g in Swept(book, before).tokens <==> h in Swept(book, before).tokens
  {
    if g in book.tokens && h in book.tokens { OneLiveToken(book, g, h); }
  }

  /** The sweep takes exactly what had expired, and so no answer of that time or later depends on it having run:
      what it took would be refused anyway. */
  lemma SweepTakesTheExpired(book: Book, before: int, h: Value, now: int)
    ensures h in Swept(book, before).tokens <==> h in book.tokens && before <= book.tokens[h].expiresAt
    ensures h in Swept(book, before).tokens ==> Swept(book, before).tokens[h] == book.tokens[h]
    ensures before <= now ==> (Accepts(Swept(book, before), h, now) <==> Accepts(book, h, now))
  {
  }

  // ----- Runs --------------------------------------------------------------------------------

  datatype Event =
    | SignIn(user: User, family: Family, value: Value, now: int, ttl: int)
    | Present(presented: Value, value: Value, now: int)
    | Logout(presented: Value, now: int)
    | Sweep(before: int)

  /** New values and new family identifiers were never issued before. */
  predicate Possible(book: Book, e: Event) {
    match e
    case SignIn(_, family, value, _, _) => value !in book.past.familyOf && family !in book.past.latest
    case Present(_, value, _) => value !in book.past.familyOf
    case _ => true
  }

  function Step(book: Book, e: Event): Book {
    match e
    case SignIn(user, family, value, now, ttl) => WithToken(book, user, family, value, now, now + ttl)
    case Present(presented, value, now) => Rotated(book, presented, value, now)
    case Logout(presented, now) => LoggedOut(book, presented, now)
    case Sweep(before) => Swept(book, before)
  }

  /** A token just issued, by a sign-in or for one presented, is accepted until its sign-in ends, and the next carries
      the same user and end. */
  lemma FreshTokenIsAccepted(book: Book, e: Event, next: Value, now: int)
    requires e.SignIn? || (e.Present? && Accepts(book, e.presented, e.now))
    ensures
      var end := if e.SignIn? then e.now + e.ttl else book.tokens[e.presented].expiresAt;
      var user := if e.SignIn? then e.user else book.tokens[e.presented].user;
      var family := if e.SignIn? then e.family else book.tokens[e.presented].family;
      && (Accepts(Step(book, e), e.value, now) <==> now < end)
      && (now < end ==> Answered(Step(book, e), e.value, next, now) == Issued(next, end, user, family))
  {
  }

  /** A token is accepted exactly while it is known, neither used nor revoked, and not at its end; and the refusal of
      any other is for the first of these it fails, a revocation before a use. */
  lemma AcceptsExactlyWhen(book: Book, h: Value, now: int)
    ensures Accepts(book, h, now) <==> h in book.tokens && Live(book.tokens[h]) && now < book.tokens[h].expiresAt
    ensures Refusal(book, h, now) == Some(UNKNOWN) <==> h !in book.tokens
    ensures Refusal(book, h, now) == Some(REVOKED) <==> h in book.tokens && book.tokens[h].revokedAt.Some?
    ensures Refusal(book, h, now) == Some(REUSED) <==>
      h in book.tokens && book.tokens[h].revokedAt.None? && book.tokens[h].usedAt.Some?
  {
  }

  /** Nothing done with one sign-in touches a token of another. */
  lemma FamiliesAreApart(book: Book, e: Event, h: Value)
    requires Inv(book) && Possible(book, e) && !e.Sweep? && h in book.tokens
    requires (e.Present? || e.Logout?) && e.presented in book.tokens ==>
      book.tokens[e.presented].family != book.tokens[h].family
    ensures h in Step(book, e).tokens && Step(book, e).tokens[h] == book.tokens[h]
  {
    assert Fits(book, h);
  }

  lemma RevokingKeeps(book: Book, family: Family, now: int)
    requires Inv(book)
    ensures Inv(FamilyRevoked(book, family, now))
  {
    var after := FamilyRevoked(book, family, now);
    forall h | h in after.tokens ensures Fits(after, h) {
      assert Fits(book, h) && Fits(book, book.past.latest[book.tokens[h].family]);
    }
  }

  lemma RotatingKeeps(book: Book, presented: Value, value: Value, now: int)
    requires Inv(book) && value !in book.past.familyOf && Accepts(book, presented, now)
    ensures Inv(Rotated(book, presented, value, now))
  {
    var after := Rotated(book, presented, value, now);
    assert Fits(book, presented);
    forall h | h in book.tokens ensures h in book.past.familyOf { assert Fits(book, h); }
    forall h | h in after.tokens ensures Fits(after, h) {
      if h != value { assert Fits(book, h); }
    }
  }

  lemma StepKeeps(book: Book, e: Event)
    requires Inv(book) && Possible(book, e)
    ensures Inv(Step(book, e))
  {
    match e
    case SignIn(user, family, value, now, ttl) =>
      var after := Step(book, e);
      forall h | h in after.tokens ensures Fits(after, h) {
        if h != value { assert Fits(book, h); }
      }
    case Present(presented, value, now) =>
      if Refusal(book, presented, now) == Some(REUSED) {
        RevokingKeeps(book, book.tokens[presented].family, now);
      } else if Accepts(book, presented, now) {
        RotatingKeeps(book, presented, value, now);
      }
    case Logout(presented, now) =>
      if presented in book.tokens { RevokingKeeps(book, book.tokens[presented].family, now); }
    case Sweep(before) =>
      var after := Step(book, e);
      forall h | h in after.tokens ensures Fits(after, h) {
        assert Fits(book, h) && Fits(book, book.past.latest[book.tokens[h].family]);
      }
      forall h | h in book.past.familyOf
        ensures h in after.tokens <==> book.past.latest[book.past.familyOf[h]] in after.tokens
      {
        SweepTakesFamilies(book, before, h, book.past.latest[book.past.familyOf[h]]);
      }
  }

  ghost predicate CanRun(book: Book, events: seq<Event>)
    decreases |events|
  {
    events == [] || (Possible(book, events[0]) && CanRun(Step(book, events[0]), events[1..]))
  }

  function After(book: Book, events: seq<Event>): Book
    decreases |events|
  {
    if events == [] then book else After(Step(book, events[0]), events[1..])
  }

  /** From an empty table on, every book a run reaches keeps the invariant. */
  lemma {:induction false} RunKeeps(book: Book, events: seq<Event>)
    requires Inv(book) && CanRun(book, events)
    ensures Inv(After(book, events))
    decreases |events|
  {
    if events != [] {
      StepKeeps(book, events[0]);
      RunKeeps(Step(book, events[0]), events[1..]);
    }
  }

  /** The past only grows: families keep their sign-in, and values their family. */
  ghost predicate Extends(before: Past, after: Past) {
    && (forall h :: h in before.familyOf ==> h in after.familyOf && after.familyOf[h] == before.familyOf[h])
    && (forall f :: f in before.granted ==> f in after.granted && after.granted[f] == before.granted[f])
  }

  lemma StepExtends(book: Book, e: Event)
    requires Inv(book) && Possible(book, e)
    ensures Extends(book.past, Step(book, e).past)
  {
    if e.Present? && Accepts(book, e.presented, e.now) { assert Fits(book, e.presented); }
  }

  lemma {:induction false} RunExtends(book: Book, events: seq<Event>)
    requires Inv(book) && CanRun(book, events)
    ensures Extends(book.past, After(book, events).past)
    decreases |events|
  {
    hide Step, Inv, Possible;
    if events != [] {
      StepKeeps(book, events[0]);
      StepExtends(book, events[0]);
      RunExtends(Step(book, events[0]), events[1..]);
    }
  }

  /** No refresh moves the end of a sign-in: whatever is refreshed later, a token of its family is accepted only before
      that time is over, and the next one carries the same user and the same end. */
  lemma SignInNeverLengthens(book: Book, e: Event, events: seq<Event>, presented: Value, value: Value, now: int)
    requires Inv(book) && e.SignIn? && Possible(book, e) && CanRun(Step(book, e), events)
    requires
      var reached := After(Step(book, e), events);
      presented in reached.past.familyOf && reached.past.familyOf[presented] == e.family
        && Accepts(reached, presented, now)
    ensures now < e.now + e.ttl
    ensures Answered(After(Step(book, e), events), presented, value, now)
      == Issued(value, e.now + e.ttl, e.user, e.family)
  {
    var start := Step(book, e);
    var reached := After(start, events);
    StepKeeps(book, e);
    assert start.past.granted[e.family] == Grant(e.user, e.now + e.ttl);
    RunKeeps(start, events);
    RunExtends(start, events);
    assert Fits(reached, presented);
  }

  // ----- The end of a sign-in ------------------------------------------------------------------

  /** The family was issued, and nothing stored of it is unrevoked. */
  ghost predicate Ended(book: Book, family: Family) {
    family in book.past.latest && forall h :: h in book.tokens && book.tokens[h].family == family ==>
      book.tokens[h].revokedAt.Some?
  }

  lemma StepStaysEnded(book: Book, e: Event, family: Family)
    requires Inv(book) && Possible(book, e) && Ended(book, family)
    ensures Ended(Step(book, e), family) && Step(book, e).past.latest[family] == book.past.latest[family]
  {
  }

  /** Once ended, a family is ended for good: whatever follows, none of its tokens is accepted, and none issued. */
  lemma {:induction false} EndedForGood(book: Book, events: seq<Event>, family: Family, presented: Value, now: int)
    requires Inv(book) && CanRun(book, events) && Ended(book, family)
    ensures
      var reached := After(book, events);
      && Ended(reached, family)
      && reached.past.latest[family] == book.past.latest[family]
      && (presented in reached.past.familyOf && reached.past.familyOf[presented] == family ==>
          !Accepts(reached, presented, now))
    decreases |events|
  {
    hide Step, Possible;
    if events == [] {
      if presented in book.tokens { assert Fits(book, presented); }
    } else {
      StepKeeps(book, events[0]);
      StepStaysEnded(book, events[0], family);
      EndedForGood(Step(book, events[0]), events[1..], family, presented, now);
    }
  }

  /** A logout ends the sign-in. */
  lemma LogoutEnds(book: Book, presented: Value, now: int)
    requires Inv(book) && presented in book.tokens
    ensures Ended(Step(book, Logout(presented, now)), book.tokens[presented].family)
  {
    assert Fits(book, presented);
  }

  ghost predicate Spent(book: Book, h: Value) {
    h in book.past.familyOf && (h in book.tokens ==> book.tokens[h].usedAt.Some?)
  }

  lemma {:induction false} SpentForGood(book: Book, events: seq<Event>, h: Value)
    requires Inv(book) && CanRun(book, events) && Spent(book, h)
    ensures Spent(After(book, events), h)
    decreases |events|
  {
    hide Inv;
    if events != [] {
      StepKeeps(book, events[0]);
      SpentForGood(Step(book, events[0]), events[1..], h);
    }
  }

  /** A token is good for one use. Presented again, however late and whatever came between, it is refused and
      its sign-in is over, for both parties that hold it. */
  lemma SecondUseEndsTheSignIn(book: Book, first: Event, events: seq<Event>, value: Value, now: int)
    requires Inv(book) && first.Present? && Possible(book, first) && Accepts(book, first.presented, first.now)
    requires CanRun(Step(book, first), events)
    ensures
      var reached := After(Step(book, first), events);
      && !Accepts(reached, first.presented, now)
      && Ended(Step(reached, Present(first.presented, value, now)), book.tokens[first.presented].family)
  {
    var h, start := first.presented, Step(book, first);
    assert Fits(book, h);
    StepKeeps(book, first);
    SpentForGood(start, events, h);
    RunKeeps(start, events);
    StepExtends(book, first);
    RunExtends(start, events);
    Finished(After(start, events), h, value, now);
  }

  lemma Finished(book: Book, h: Value, value: Value, now: int)
    requires Inv(book) && Spent(book, h)
    ensures !Accepts(book, h, now) && Ended(Step(book, Present(h, value, now)), book.past.familyOf[h])
  {
    var family := book.past.familyOf[h];
    forall g | g in book.tokens && book.tokens[g].family == family
      ensures h in book.tokens && book.tokens[h].family == family
      ensures book.tokens[h].revokedAt.Some? == book.tokens[g].revokedAt.Some?
    {
      assert Fits(book, g);
      assert Fits(book, h);
    }
  }

  // ----- The table -----------------------------------------------------------------------------

  class TokenTable {
    var tokens: map<Value, Token>
    ghost var past: Past

    constructor ()
      ensures Contents() == EMPTY && Valid()
    {
      tokens := map[];
      past := EMPTY.past;
    }

    ghost function Contents(): Book
      reads this
    {
      Book(tokens, past)
    }

    ghost predicate Valid()
      reads this
    {
      Inv(Contents())
    }

    method Issue(user: User, family: Family, value: Value, now: int, expiresAt: int) returns (issued: Answer)
      modifies this
      ensures Contents() == WithToken(old(Contents()), user, family, value, now, expiresAt)
      ensures tokens == old(tokens)[value := Token(user, family, now, expiresAt, None, None)]
      ensures issued == Issued(value, expiresAt, user, family)
    {
      tokens := tokens[value := Token(user, family, now, expiresAt, None, None)];
      past := WithToken(Book(tokens, past), user, family, value, now, expiresAt).past;
      return Issued(value, expiresAt, user, family);
    }

    method RevokeFamily(family: Family, now: int) returns (live: nat)
      modifies `tokens
      ensures Contents() == FamilyRevoked(old(Contents()), family, now)
      ensures live == |set h | h in old(tokens) && old(tokens)[h].family == family && old(tokens)[h].revokedAt.None?|
    {
      live := |set h | h in tokens && tokens[h].family == family && tokens[h].revokedAt.None?|;
      tokens := map h | h in tokens ::
        if tokens[h].family == family && tokens[h].revokedAt.None? then tokens[h].(revokedAt := Some(now))
        else tokens[h];
    }

    method StartFamily(user: User, family: Family, value: Value, now: int, ttl: int) returns (issued: Answer)
      requires Valid() && Possible(Contents(), SignIn(user, family, value, now, ttl))
      modifies this
      ensures Valid() && Contents() == Step(old(Contents()), SignIn(user, family, value, now, ttl))
      ensures issued == Issued(value, now + ttl, user, family)
    {
      StepKeeps(Contents(), SignIn(user, family, value, now, ttl));
      issued := Issue(user, family, value, now, now + ttl);
    }

    /** The table takes the step of a presented token, and the answer is what `Answered` says of it. */
    method Rotate(presented: Value, value: Value, now: int) returns (answer: Answer)
      requires Valid() && Possible(Contents(), Present(presented, value, now))
      modifies this
      ensures Valid() && Contents() == Step(old(Contents()), Present(presented, value, now))
      ensures answer == Answered(old(Contents()), presented, value, now)
    {
      hide Inv;
      StepKeeps(Contents(), Present(presented, value, now));
      if presented !in tokens {
        return Refused(UNKNOWN);
      }
      var token := tokens[presented];
      if token.revokedAt.Some? {
        return Refused(REVOKED);
      }
      if token.usedAt.Some? {
        var _ := RevokeFamily(token.family, now);
        return Refused(REUSED);
      }
      if token.expiresAt <= now {
        return Refused(EXPIRED);
      }
      tokens := tokens[presented := token.(usedAt := Some(now))];
      answer := Issue(token.user, token.family, value, now, token.expiresAt);
    }

    /** The table takes the step of a logout; an unknown token changes nothing. */
    method Revoke(presented: Value, now: int) returns (known: bool)
      requires Valid()
      modifies this
      ensures Valid() && Contents() == Step(old(Contents()), Logout(presented, now))
      ensures known == (presented in old(tokens))
    {
      hide Inv;
      StepKeeps(Contents(), Logout(presented, now));
      if presented !in tokens {
        return false;
      }
      var _ := RevokeFamily(tokens[presented].family, now);
      return true;
    }

    method DeleteExpired(before: int) returns (gone: nat)
      requires Valid()
      modifies this
      ensures Valid() && Contents() == Step(old(Contents()), Sweep(before))
      ensures gone == |set h | h in old(tokens) && old(tokens)[h].expiresAt < before|
      ensures tokens == map h | h in old(tokens) && before <= old(tokens)[h].expiresAt :: old(tokens)[h]
    {
      hide Inv;
      StepKeeps(Contents(), Sweep(before));
      gone := |set h | h in tokens && tokens[h].expiresAt < before|;
      tokens := map h | h in tokens && !(tokens[h].expiresAt < before) :: tokens[h];
    }
  }
}
