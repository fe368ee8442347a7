/** The text an offline token is signed over, and for which tokens it fixes what was signed. */
module TokenTexts {
  import opened ColonTexts

  const MAX_OFFLINE_FLOOR := 5000

  datatype Token = Token(
    tokenId: string, accountId: string, maxFloor: int, expiration: int, terminalId: string, sequenceCounter: int)

  /** Everything behind the account. */
  function Terms(maxFloor: int, expiration: int, terminalId: string, counter: int): string {
    Joined(Decimal(maxFloor), Joined(Decimal(expiration), Joined(terminalId, Decimal(counter))))
  }

  /** The text that is hashed and signed. */
  function TokenText(t: Token): string {
    Joined(t.tokenId, Joined(t.accountId, Terms(t.maxFloor, t.expiration, t.terminalId, t.sequenceCounter)))
  }

  /** Its six fields, in order. */
  lemma TokenLayout(t: Token)
    ensures TokenText(t) == t.tokenId + ":" + t.accountId + ":" + Decimal(t.maxFloor) + ":" + Decimal(t.expiration)
                            + ":" + t.terminalId + ":" + Decimal(t.sequenceCounter)
  {
    var floor, expiration, counter := Decimal(t.maxFloor), Decimal(t.expiration), Decimal(t.sequenceCounter);
    var head := Joined(t.tokenId, t.accountId);
    Regroup(t.tokenId, t.accountId, Terms(t.maxFloor, t.expiration, t.terminalId, t.sequenceCounter));
    Regroup(head, floor, Joined(expiration, Joined(t.terminalId, counter)));
    Regroup(Joined(head, floor), expiration, Joined(t.terminalId, counter));
    Regroup(Joined(Joined(head, floor), expiration), t.terminalId, counter);
  }

  /** The id the authority gives: account, clock and counter. */
  function TokenId(accountId: string, nanos: nat, counter: nat): string {
    TOKEN_PREFIX + accountId + [DASH] + Decimal(nanos) + [DASH] + Decimal(counter)
  }

  lemma TokenIdLayout(accountId: string, nanos: nat, counter: nat)
    ensures TokenId(accountId, nanos, counter) == "TOK-" + accountId + "-" + Decimal(nanos) + "-" + Decimal(counter)
  {
  }

  /** A token as the authority issues it. */
  ghost predicate Issued(t: Token) {
    && t.maxFloor <= MAX_OFFLINE_FLOOR && t.sequenceCounter > 0
    && exists nanos: nat :: t.tokenId == TokenId(t.accountId, nanos, t.sequenceCounter)
  }

  /** All tokens that a signature of this text is good for. */
  ghost function Readings(t: Token): iset<Token> {
    iset u: Token | TokenText(u) == TokenText(t)
  }

  /** The text starts with a number and goes on. */
  ghost predicate NumberFirst(s: string) {
    exists k: int, rest: string :: s == Joined(Decimal(k), rest)
  }

  /** Somewhere behind its start the text has two numbers in a row and goes on. */
  ghost predicate NumbersInside(s: string) {
    exists d: string, j: int, k: int, rest: string :: s == Joined(d, Joined(Decimal(j), Joined(Decimal(k), rest)))
  }

  /** The account holds no colon, and the terminal cannot be read as numbers followed by a terminal. */
  ghost predicate Plain(t: Token) {
    COLON !in t.accountId && !NumberFirst(t.terminalId) && !NumbersInside(t.terminalId)
  }

  lemma IdPlain(accountId: string, nanos: nat, counter: nat)
    requires COLON !in accountId
    ensures COLON !in TokenId(accountId, nanos, counter)
  {
    DecimalPlain(nanos);
    DecimalPlain(counter);
  }

  /** A terminal read up to a counter. */
  lemma TerminalCut(head: string, terminal': string, counter': int, terminal: string, counter: int)
    requires Joined(head, Joined(terminal', Decimal(counter'))) == Joined(terminal, Decimal(counter))
    ensures Joined(head, terminal') == terminal && counter' == counter
  {
    Regroup(head, terminal', Decimal(counter'));
    DecimalPlain(counter');
    DecimalPlain(counter);
    LastPiece(COLON, Joined(head, terminal'), Decimal(counter'), terminal, Decimal(counter));
    DecimalInjective(counter', counter);
  }

  lemma TermsFix(u: Token, t: Token)
    requires Terms(u.maxFloor, u.expiration, u.terminalId, u.sequenceCounter)
          == Terms(t.maxFloor, t.expiration, t.terminalId, t.sequenceCounter)
    ensures u.maxFloor == t.maxFloor && u.expiration == t.expiration
    ensures u.terminalId == t.terminalId && u.sequenceCounter == t.sequenceCounter
  {
    DecimalPlain(u.maxFloor);
    DecimalPlain(t.maxFloor);
    DecimalPlain(u.expiration);
    DecimalPlain(t.expiration);
    var restU, restT := Joined(u.terminalId, Decimal(u.sequenceCounter)),
        Joined(t.terminalId, Decimal(t.sequenceCounter));
    PlainFirst(Decimal(u.maxFloor), Joined(Decimal(u.expiration), restU), Decimal(t.maxFloor),
               Joined(Decimal(t.expiration), restT));
    PlainFirst(Decimal(u.expiration), restU, Decimal(t.expiration), restT);
    DecimalInjective(u.maxFloor, t.maxFloor);
    DecimalInjective(u.expiration, t.expiration);
    DecimalPlain(u.sequenceCounter);
    DecimalPlain(t.sequenceCounter);
    LastPiece(COLON, u.terminalId, Decimal(u.sequenceCounter), t.terminalId, Decimal(t.sequenceCounter));
    DecimalInjective(u.sequenceCounter, t.sequenceCounter);
  }

  /** Something in front of the terms of `u` that reads like the terms of `t` makes numbers show up in the terminal. */
  lemma ShiftedTerms(d: string, u: Token, t: Token)
    requires Joined(d, Terms(u.maxFloor, u.expiration, u.terminalId, u.sequenceCounter))
          == Terms(t.maxFloor, t.expiration, t.terminalId, t.sequenceCounter)
    ensures NumberFirst(t.terminalId) || NumbersInside(t.terminalId)
  {
    var f, e := Decimal(t.maxFloor), Decimal(t.expiration);
    var f', e' := Decimal(u.maxFloor), Decimal(u.expiration);
    var end, end' := Joined(t.terminalId, Decimal(t.sequenceCounter)), Joined(u.terminalId, Decimal(u.sequenceCounter));
    var terms' := Joined(f', Joined(e', end'));
    DecimalPlain(t.maxFloor);
    DecimalPlain(t.expiration);
    DecimalPlain(u.maxFloor);
    FirstField(d, terms', f, Joined(e, end));
    if d == f {
      PlainFirst(f', Joined(e', end'), e, end);
      TerminalCut(e', u.terminalId, u.sequenceCounter, t.terminalId, t.sequenceCounter);
    } else {
      var d1 := d[|f| + 1..];
      FirstField(d1, terms', e, end);
      Regroup(f', e', end');
      if d1 == e {
        TerminalCut(Joined(f', e'), u.terminalId, u.sequenceCounter, t.terminalId, t.sequenceCounter);
        Regroup(f', e', u.terminalId);
      } else {
        var d2 := d1[|e| + 1..];
        Regroup(d2, Joined(f', e'), end');
        TerminalCut(Joined(d2, Joined(f', e')), u.terminalId, u.sequenceCounter, t.terminalId, t.sequenceCounter);
        Regroup(d2, Joined(f', e'), u.terminalId);
        Regroup(f', e', u.terminalId);
      }
    }
  }

  /** Whatever stands in front of the terms of `u`, if the whole reads like a plain account and its terms, it is that
      account. */
  lemma AccountFixed(w: string, u: Token, t: Token)
    requires Plain(t)
    requires Joined(w, Terms(u.maxFloor, u.expiration, u.terminalId, u.sequenceCounter))
          == Joined(t.accountId, Terms(t.maxFloor, t.expiration, t.terminalId, t.sequenceCounter))
    ensures w == t.accountId && u.maxFloor == t.maxFloor && u.expiration == t.expiration
    ensures u.terminalId == t.terminalId && u.sequenceCounter == t.sequenceCounter
  {
    var termsU := Terms(u.maxFloor, u.expiration, u.terminalId, u.sequenceCounter);
    var termsT := Terms(t.maxFloor, t.expiration, t.terminalId, t.sequenceCounter);
    FirstField(w, termsU, t.accountId, termsT);
    if w != t.accountId { ShiftedTerms(w[|t.accountId| + 1..], u, t); } else { TermsFix(u, t); }
  }

  /** The signed text of a plain token can be read in one way only. */
  lemma PlainFixed(t: Token, u: Token)
    requires Issued(t) && Plain(t) && TokenText(u) == TokenText(t)
    ensures u == t
  {
    var nanos: nat :| t.tokenId == TokenId(t.accountId, nanos, t.sequenceCounter);
    IdPlain(t.accountId, nanos, t.sequenceCounter);
    var termsU := Terms(u.maxFloor, u.expiration, u.terminalId, u.sequenceCounter);
    var termsT := Terms(t.maxFloor, t.expiration, t.terminalId, t.sequenceCounter);
    FirstField(u.tokenId, Joined(u.accountId, termsU), t.tokenId, Joined(t.accountId, termsT));
    if u.tokenId == t.tokenId {
      AccountFixed(u.accountId, u, t);
    } else {
      var d := u.tokenId[|t.tokenId| + 1..];
      Regroup(d, u.accountId, termsU);
      assert Joined(d, u.accountId)[|d|] == COLON;
      AccountFixed(Joined(d, u.accountId), u, t);
    }
  }

  /** The other reading of a token whose account holds a colon: the id ends within the account's name, and all the
      rest of it belongs to the account. */
  function SplitAccount(t: Token, p: string, q: string, nanos: nat): Token
    requires t.sequenceCounter >= 0
  {
    t.(tokenId := TOKEN_PREFIX + p,
       accountId := Joined(q + [DASH] + Decimal(nanos) + [DASH] + Decimal(t.sequenceCounter), t.accountId))
  }

  lemma IdCut(prefix: string, p: string, q: string, x: string, y: string)
    ensures prefix + Joined(p, q) + [DASH] + x + [DASH] + y == Joined(prefix + p, q + [DASH] + x + [DASH] + y)
  {
    var head := Joined(prefix + p, q);
    assert prefix + Joined(p, q) == head;
    assert head + [DASH] == Joined(prefix + p, q + [DASH]);
    assert head + [DASH] + x == Joined(prefix + p, q + [DASH] + x);
    assert head + [DASH] + x + [DASH] == Joined(prefix + p, q + [DASH] + x + [DASH]);
  }

  lemma SplitAccountReads(t: Token, p: string, q: string, nanos: nat)
    requires t.sequenceCounter >= 0 && t.accountId == Joined(p, q)
             && t.tokenId == TokenId(t.accountId, nanos, t.sequenceCounter)
    ensures TokenText(SplitAccount(t, p, q, nanos)) == TokenText(t)
    ensures SplitAccount(t, p, q, nanos).tokenId != t.tokenId
            && |SplitAccount(t, p, q, nanos).accountId| > |t.accountId|
  {
    var tail := q + [DASH] + Decimal(nanos) + [DASH] + Decimal(t.sequenceCounter);
    IdCut(TOKEN_PREFIX, p, q, Decimal(nanos), Decimal(t.sequenceCounter));
    var rest := Joined(t.accountId, Terms(t.maxFloor, t.expiration, t.terminalId, t.sequenceCounter));
    Regroup(TOKEN_PREFIX + p, tail, rest);
    Regroup(tail, t.accountId, Terms(t.maxFloor, t.expiration, t.terminalId, t.sequenceCounter));
  }

  /** The text cut at its first colon. */
  lemma FirstColon(s: string) returns (p: string, q: string)
    requires COLON in s
    ensures s == Joined(p, q) && COLON !in p
    decreases |s|
  {
    if s[0] == COLON {
      p, q := "", s[1..];
      assert s == [s[0]] + s[1..];
    } else {
      p, q := FirstColon(s[1..]);
      p := [s[0]] + p;
      assert s == [s[0]] + s[1..];
    }
  }

  /** The other reading of a token whose terminal starts with a number: floor and expiration move one field on. */
  function ShiftOne(t: Token, k: int, rest: string): Token {
    t.(accountId := Joined(t.accountId, Decimal(t.maxFloor)), maxFloor := t.expiration, expiration := k,
       terminalId := rest)
  }

  lemma ShiftOneReads(t: Token, k: int, rest: string)
    requires t.terminalId == Joined(Decimal(k), rest)
    ensures TokenText(ShiftOne(t, k, rest)) == TokenText(t)
  {
    Regroup(Decimal(k), rest, Decimal(t.sequenceCounter));
    Regroup(t.accountId, Decimal(t.maxFloor),
            Joined(Decimal(t.expiration), Joined(Decimal(k), Joined(rest, Decimal(t.sequenceCounter)))));
  }

  /** The other reading of a token whose terminal has two numbers inside. */
  function ShiftMany(t: Token, d: string, j: int, k: int, rest: string): Token {
    t.(accountId := Joined(t.accountId, Joined(Decimal(t.maxFloor), Joined(Decimal(t.expiration), d))),
       maxFloor := j, expiration := k, terminalId := rest)
  }

  lemma ShiftManyReads(t: Token, d: string, j: int, k: int, rest: string)
    requires t.terminalId == Joined(d, Joined(Decimal(j), Joined(Decimal(k), rest)))
    ensures TokenText(ShiftMany(t, d, j, k, rest)) == TokenText(t)
  {
    var f, e, s := Decimal(t.maxFloor), Decimal(t.expiration), Decimal(t.sequenceCounter);
    var tail := Joined(Decimal(j), Joined(Decimal(k), Joined(rest, s)));
    Regroup(Decimal(k), rest, s);
    Regroup(Decimal(j), Joined(Decimal(k), rest), s);
    Regroup(d, Joined(Decimal(j), Joined(Decimal(k), rest)), s);
    Regroup(e, d, tail);
    Regroup(f, Joined(e, d), tail);
    Regroup(t.accountId, Joined(f, Joined(e, d)), tail);
  }

  /** A second reading of every token that is not plain, always for another account. */
  lemma SecondReading(t: Token) returns (u: Token)
    requires Issued(t) && !Plain(t)
    ensures TokenText(u) == TokenText(t) && |u.accountId| > |t.accountId| && u.tokenId != t.accountId
  {
    var nanos: nat :| t.tokenId == TokenId(t.accountId, nanos, t.sequenceCounter);
    assert |t.tokenId| > |t.accountId|;
    if COLON in t.accountId {
      var p, q := FirstColon(t.accountId);
      u := SplitAccount(t, p, q, nanos);
      SplitAccountReads(t, p, q, nanos);
    } else if k: int, rest: string :| t.terminalId == Joined(Decimal(k), rest) {
      u := ShiftOne(t, k, rest);
      ShiftOneReads(t, k, rest);
    } else {
      var d: string, j: int, k: int, rest: string :|
        t.terminalId == Joined(d, Joined(Decimal(j), Joined(Decimal(k), rest)));
      u := ShiftMany(t, d, j, k, rest);
      ShiftManyReads(t, d, j, k, rest);
    }
  }

  /** Exactly for which issued tokens the signed text fixes all that was signed: those whose account holds no colon and
      whose terminal cannot be read as numbers followed by a terminal. */
  lemma TextFixesExactly(t: Token)
    requires Issued(t)
    ensures (forall u: Token :: TokenText(u) == TokenText(t) ==> u == t) <==> Plain(t)
  {
    if Plain(t) {
      forall u: Token | TokenText(u) == TokenText(t) ensures u == t { PlainFixed(t, u); }
    } else {
      var u := SecondReading(t);
    }
  }

  /** Tokens issued by one authority: the counter tells them apart. */
  ghost predicate Issuance(issued: set<Token>) {
    && (forall t :: t in issued ==> Issued(t))
    && (forall t, u :: t in issued && u in issued && t.sequenceCounter == u.sequenceCounter ==> t == u)
  }

  /** The token is good under the signature of some issued one. */
  ghost predicate Signed(u: Token, issued: set<Token>) {
    exists t :: t in issued && TokenText(t) == TokenText(u)
  }

  lemma IdFixesCounter(a: string, m: nat, i: nat, b: string, n: nat, j: nat)
    requires TokenId(a, m, i) == TokenId(b, n, j)
    ensures i == j
  {
    DigitsPlain(i);
    DigitsPlain(j);
    assert DASH !in Digits(i) && DASH !in Digits(j);
    LastPiece(DASH, TOKEN_PREFIX + a + [DASH] + Decimal(m), Decimal(i), TOKEN_PREFIX + b + [DASH] + Decimal(n),
              Decimal(j));
    DecimalInjective(i, j);
  }

  /** No two issued tokens share an id. */
  lemma IdsDiffer(issued: set<Token>, t: Token, u: Token)
    requires Issuance(issued) && t in issued && u in issued && t.tokenId == u.tokenId
    ensures t == u
  {
    var m: nat :| t.tokenId == TokenId(t.accountId, m, t.sequenceCounter);
    var n: nat :| u.tokenId == TokenId(u.accountId, n, u.sequenceCounter);
    IdFixesCounter(t.accountId, m, t.sequenceCounter, u.accountId, n, u.sequenceCounter);
  }

  /** If all issued tokens are plain, only they are ever good. */
  lemma SignedIsIssued(u: Token, issued: set<Token>)
    requires Issuance(issued) && (forall t :: t in issued ==> Plain(t)) && Signed(u, issued)
    ensures u in issued
  {
    var t :| t in issued && TokenText(t) == TokenText(u);
    PlainFixed(t, u);
  }

  lemma IssuedPrefix(t: Token)
    requires Issued(t)
    ensures TOKEN_PREFIX <= t.tokenId
  {
    var nanos: nat :| t.tokenId == TokenId(t.accountId, nanos, t.sequenceCounter);
    Fivefold(TOKEN_PREFIX, t.accountId, [DASH] + Decimal(nanos), [DASH], Decimal(t.sequenceCounter));
  }

  lemma Fivefold(a: string, b: string, c: string, d: string, e: string)
    ensures a <= a + b + c + d + e
  {
  }

  /** Plain or not, whatever is good has an id like an issued one. */
  lemma SignedPrefix(u: Token, issued: set<Token>)
    requires Issuance(issued) && Signed(u, issued)
    ensures TOKEN_PREFIX <= u.tokenId
  {
    var t :| t in issued && TokenText(t) == TokenText(u);
    IssuedPrefix(t);
    StartsWithToken(t.tokenId, Joined(t.accountId, Terms(t.maxFloor, t.expiration, t.terminalId, t.sequenceCounter)));
    PrefixKept(u.tokenId, Joined(u.accountId, Terms(u.maxFloor, u.expiration, u.terminalId, u.sequenceCounter)));
  }

  /** A token issued for the account `w:` is good as one with id `TOK-w`. */
  function Source(w: string, terminalId: string, expiration: int, counter: nat): Token {
    Token(TokenId(w + [COLON], 0, counter), w + [COLON], MAX_OFFLINE_FLOOR, expiration, terminalId, counter)
  }

  function Disguised(w: string, terminalId: string, expiration: int, counter: nat): Token {
    SplitAccount(Source(w, terminalId, expiration, counter), w, "", 0)
  }

  lemma DisguisedSigned(w: string, terminalId: string, expiration: int, counter: nat)
    requires counter > 0
    ensures var t, u := Source(w, terminalId, expiration, counter), Disguised(w, terminalId, expiration, counter);
            && Issued(t) && TokenText(u) == TokenText(t) && u.tokenId == TOKEN_PREFIX + w
            && u.maxFloor == MAX_OFFLINE_FLOOR && u.expiration == expiration && u.terminalId == terminalId
  {
    var t := Source(w, terminalId, expiration, counter);
    assert t.accountId == Joined(w, "");
    SplitAccountReads(t, w, "", 0);
  }

  /** Which ids a good token can have: exactly those that start like an issued one. */
  lemma TokenIdsExactly(id: string)
    ensures (exists t: Token, u: Token :: Issued(t) && TokenText(u) == TokenText(t) && u.tokenId == id)
            <==> TOKEN_PREFIX <= id
  {
    if TOKEN_PREFIX <= id {
      assert id == TOKEN_PREFIX + id[4..];
      DisguisedSigned(id[4..], "", 0, 1);
    }
    forall t: Token, u: Token | Issued(t) && TokenText(u) == TokenText(t) && u.tokenId == id
      ensures TOKEN_PREFIX <= id {
      assert Signed(u, {t});
      SignedPrefix(u, {t});
    }
  }
}
