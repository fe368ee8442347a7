/** Offline authorization at the edge: token floors, cumulative spending, sequence numbers, revocation. */
module OfflineAuth {
  import opened Sums
  import opened TokenTexts
  import opened SlotCount
  import opened CuckooModel
  import opened CompactFilters

  const ANY_TERMINAL := "*"

  /** The edge agent's own state. */
  datatype Authorizer = Authorizer(terminalId: string, spent: map<string, int>, sequenceNum: nat)

  /** What the outside world says about a token at this moment: on the revocation list, signed by the authority,
      and the time in seconds. */
  datatype Checks = Checks(revoked: bool, genuine: bool, now: int)

  datatype Refusal = RevokedAtEdge | TokenInvalid | FloorLimitExceeded

  datatype Decision = Granted(sequenceNum: nat, remainingFloor: int) | Refused(reason: Refusal)

  function SpentUnder(spent: map<string, int>, tokenId: string): int {
    if tokenId in spent then spent[tokenId] else 0
  }

  function Authorize(a: Authorizer, token: Token, amount: int, k: Checks): (Authorizer, Decision) {
    if k.revoked then (a, Refused(RevokedAtEdge))
    else if k.now > token.expiration then (a, Refused(TokenInvalid))
    else if token.terminalId != ANY_TERMINAL && token.terminalId != a.terminalId then (a, Refused(TokenInvalid))
    else if !k.genuine then (a, Refused(TokenInvalid))
    else if amount > token.maxFloor || amount > MAX_OFFLINE_FLOOR then (a, Refused(FloorLimitExceeded))
    else
      var total := SpentUnder(a.spent, token.tokenId) + amount;
      if total > token.maxFloor then (a, Refused(FloorLimitExceeded))
      else (a.(spent := a.spent[token.tokenId := total], sequenceNum := a.sequenceNum + 1),
            Granted(a.sequenceNum + 1, token.maxFloor - total))
  }

  /** A grant needs every check to pass, and anything short of a grant leaves the authorizer as it was. */
  lemma GrantedExactly(a: Authorizer, token: Token, amount: int, k: Checks)
    ensures var (b, d) := Authorize(a, token, amount, k);
            && (d.Granted? <==>
                  && !k.revoked && k.genuine && k.now <= token.expiration
                  && (token.terminalId == ANY_TERMINAL || token.terminalId == a.terminalId)
                  && amount <= MAX_OFFLINE_FLOOR && amount <= token.maxFloor
                  && SpentUnder(a.spent, token.tokenId) + amount <= token.maxFloor)
            && (!d.Granted? ==> b == a)
            && (d.Granted? ==> d.remainingFloor == token.maxFloor - SpentUnder(b.spent, token.tokenId) >= 0)
  {
  }

  /** Which reason a refusal carries: a revoked card comes before everything else; then a token out of date, bound to
      another terminal or not signed by the authority; then an amount above the ceilings, alone or with what was spent
      before. A grant carries the next number, and adds the amount to what was spent under the token's id alone. */
  lemma RefusedExactly(a: Authorizer, token: Token, amount: int, k: Checks)
    ensures var (b, d) := Authorize(a, token, amount, k);
            var spent := if token.tokenId in a.spent then a.spent[token.tokenId] else 0;
            var bad := k.now > token.expiration || token.terminalId !in {"*", a.terminalId} || !k.genuine;
            var high := amount > token.maxFloor || amount > 5000 || spent + amount > token.maxFloor;
            && (d == Refused(RevokedAtEdge) <==> k.revoked)
            && (d == Refused(TokenInvalid) <==> !k.revoked && bad)
            && (d == Refused(FloorLimitExceeded) <==> !k.revoked && !bad && high)
            && (d.Granted? ==> d.sequenceNum == a.sequenceNum + 1 == b.sequenceNum && b.terminalId == a.terminalId
                               && b.spent == a.spent[token.tokenId := spent + amount])
  {
  }

  datatype Attempt = Attempt(token: Token, amount: int, checks: Checks)

  function After(a: Authorizer, attempts: seq<Attempt>): Authorizer
    decreases |attempts|
  {
    if attempts == [] then a
    else After(Authorize(a, attempts[0].token, attempts[0].amount, attempts[0].checks).0, attempts[1..])
  }

  function DecisionsOf(a: Authorizer, attempts: seq<Attempt>): (ds: seq<Decision>)
    ensures |ds| == |attempts|
    decreases |attempts|
  {
    if attempts == [] then []
    else var (b, d) := Authorize(a, attempts[0].token, attempts[0].amount, attempts[0].checks);
         [d] + DecisionsOf(b, attempts[1..])
  }

  /** The amounts granted under a token along a run. */
  ghost function GrantedUnder(attempts: seq<Attempt>, ds: seq<Decision>, tokenId: string): int
    requires |ds| == |attempts|
    decreases |attempts|
  {
    if attempts == [] then 0
    else (if ds[0].Granted? && attempts[0].token.tokenId == tokenId then attempts[0].amount else 0)
         + GrantedUnder(attempts[1..], ds[1..], tokenId)
  }

  ghost function Grants(ds: seq<Decision>): nat {
    if ds == [] then 0 else (if ds[0].Granted? then 1 else 0) + Grants(ds[1..])
  }

  /** Whatever the signature check lets pass is good under the signature of an issued token. */
  ghost predicate Unforged(attempts: seq<Attempt>, issued: set<Token>) {
    forall i :: 0 <= i < |attempts| && attempts[i].checks.genuine ==> Signed(attempts[i].token, issued)
  }

  ghost predicate AllPlain(issued: set<Token>) {
    forall t :: t in issued ==> Plain(t)
  }

  ghost predicate NonNegative(attempts: seq<Attempt>) {
    forall i :: 0 <= i < |attempts| ==> attempts[i].amount >= 0
  }

  /** The goods handed out along a run on these tokens: the positive amounts granted. */
  ghost function Gross(attempts: seq<Attempt>, ds: seq<Decision>, tokens: iset<Token>): nat
    requires |ds| == |attempts|
    decreases |attempts|
  {
    if attempts == [] then 0
    else (if ds[0].Granted? && attempts[0].token in tokens && attempts[0].amount > 0 then attempts[0].amount else 0)
         + Gross(attempts[1..], ds[1..], tokens)
  }

  /** Nothing has been spent but under issued tokens, and under none more than its ceiling. */
  ghost predicate WithinFloors(a: Authorizer, issued: set<Token>) {
    forall id :: id in a.spent ==> Covers(issued, id, a.spent[id])
  }

  ghost predicate Covers(issued: set<Token>, id: string, amount: int) {
    exists t :: t in issued && t.tokenId == id && amount <= t.maxFloor
  }

  /** Along any run the recorded spending of every token is exactly what was granted under it, and the sequence number
      counts the grants, whatever the amounts. */
  lemma {:induction false} SpendingRecorded(a: Authorizer, attempts: seq<Attempt>, tokenId: string)
    ensures var e := After(a, attempts);
            var ds := DecisionsOf(a, attempts);
            && SpentUnder(e.spent, tokenId) == SpentUnder(a.spent, tokenId) + GrantedUnder(attempts, ds, tokenId)
            && e.sequenceNum == a.sequenceNum + Grants(ds)
    decreases |attempts|
  {
    if attempts != [] {
      var (b, d) := Authorize(a, attempts[0].token, attempts[0].amount, attempts[0].checks);
      SpendingRecorded(b, attempts[1..], tokenId);
      assert DecisionsOf(a, attempts)[1..] == DecisionsOf(b, attempts[1..]);
    }
  }

  lemma GrantWithinFloors(a: Authorizer, at: Attempt, issued: set<Token>)
    requires WithinFloors(a, issued) && Issuance(issued) && AllPlain(issued)
    requires at.checks.genuine ==> Signed(at.token, issued)
    ensures WithinFloors(Authorize(a, at.token, at.amount, at.checks).0, issued)
  {
    if at.checks.genuine { SignedIsIssued(at.token, issued); }
  }

  lemma {:induction false} StaysWithinFloors(a: Authorizer, attempts: seq<Attempt>, issued: set<Token>)
    requires WithinFloors(a, issued) && Issuance(issued) && AllPlain(issued) && Unforged(attempts, issued)
    ensures WithinFloors(After(a, attempts), issued)
    decreases |attempts|
  {
    if attempts != [] {
      GrantWithinFloors(a, attempts[0], issued);
      StaysWithinFloors(Authorize(a, attempts[0].token, attempts[0].amount, attempts[0].checks).0, attempts[1..],
                        issued);
    }
  }

  lemma {:induction false} GrantsAddUp(attempts: seq<Attempt>, ds: seq<Decision>, tokenId: string)
    requires |ds| == |attempts| && NonNegative(attempts)
    ensures GrantedUnder(attempts, ds, tokenId) == Gross(attempts, ds, iset t: Token | t.tokenId == tokenId)
    decreases |attempts|
  {
    if attempts != [] { GrantsAddUp(attempts[1..], ds[1..], tokenId); }
  }

  /** In every run on plain tokens, whatever the amounts, what was granted under a token id, on balance, is nothing or
      stays within the ceiling of the one issued token of that id; without negative amounts the balance is the whole
      of it. */
  lemma TokenCeiling(terminalId: string, attempts: seq<Attempt>, issued: set<Token>, tokenId: string)
    requires Issuance(issued) && AllPlain(issued) && Unforged(attempts, issued)
    ensures var ds := DecisionsOf(Authorizer(terminalId, map[], 0), attempts);
            var granted := GrantedUnder(attempts, ds, tokenId);
            && (granted == 0 || Covers(issued, tokenId, granted))
            && (NonNegative(attempts) ==> granted == Gross(attempts, ds, iset t: Token | t.tokenId == tokenId))
  {
    var a := Authorizer(terminalId, map[], 0);
    SpendingRecorded(a, attempts, tokenId);
    StaysWithinFloors(a, attempts, issued);
    if NonNegative(attempts) { GrantsAddUp(attempts, DecisionsOf(a, attempts), tokenId); }
  }

  /** The k-th grant of a run carries the k-th number after the start. */
  lemma {:induction false} GrantsNumbered(a: Authorizer, attempts: seq<Attempt>, i: nat)
    requires i < |attempts| && DecisionsOf(a, attempts)[i].Granted?
    ensures DecisionsOf(a, attempts)[i].sequenceNum == a.sequenceNum + Grants(DecisionsOf(a, attempts)[..i]) + 1
    decreases |attempts|
  {
    var (b, d) := Authorize(a, attempts[0].token, attempts[0].amount, attempts[0].checks);
    var ds := DecisionsOf(a, attempts);
    if i > 0 {
      GrantsNumbered(b, attempts[1..], i - 1);
      assert ds[..i][1..] == DecisionsOf(b, attempts[1..])[..i - 1];
    }
  }

  /** The missing sign check matters: a negative amount gives floor back, and a second full floor is granted. */
  lemma NegativeAmountReopensFloor(token: Token, now: int)
    requires 0 < token.maxFloor <= MAX_OFFLINE_FLOOR && token.terminalId == ANY_TERMINAL && now <= token.expiration
    ensures var k := Checks(false, true, now);
            var full, back := Attempt(token, token.maxFloor, k), Attempt(token, -token.maxFloor, k);
            var ds := DecisionsOf(Authorizer("", map[], 0), [full, back, full]);
            ds[0].Granted? && ds[1].Granted? && ds[2].Granted?
  {
    var k := Checks(false, true, now);
    var full, back := Attempt(token, token.maxFloor, k), Attempt(token, -token.maxFloor, k);
    var a0 := Authorizer("", map[], 0);
    var a1 := Authorize(a0, token, token.maxFloor, k).0;
    var a2 := Authorize(a1, token, -token.maxFloor, k).0;
    var s := [full, back, full];
    assert s[1..] == [back, full] && s[1..][1..] == [full] && s[1..][1..][1..] == [];
    assert DecisionsOf(a2, [full])[0].Granted?;
    assert DecisionsOf(a1, [back, full])[1] == DecisionsOf(a2, [full])[0];
  }

  /** Whenever this token id is shown, with whatever else, one of these amounts is asked for. */
  ghost predicate AsksFor(attempts: seq<Attempt>, tokenId: string, amounts: iset<int>) {
    forall i :: 0 <= i < |attempts| && attempts[i].token.tokenId == tokenId ==> attempts[i].amount in amounts
  }

  /** No run over these amounts, with whatever other tokens in between, hands out more than the token's ceiling. */
  ghost predicate Capped(terminalId: string, token: Token, amounts: iset<int>) {
    forall attempts :: AsksFor(attempts, token.tokenId, amounts) ==>
      Gross(attempts, DecisionsOf(Authorizer(terminalId, map[], 0), attempts), iset{token}) <= Ceiling(token)
  }

  function Ceiling(token: Token): nat {
    if token.maxFloor < 0 then 0 else token.maxFloor
  }

  predicate Grantable(token: Token, amount: int) {
    0 < amount <= token.maxFloor && amount <= MAX_OFFLINE_FLOOR
  }

  ghost predicate HasNegative(amounts: iset<int>) {
    exists n :: n in amounts && n < 0
  }

  ghost predicate HasGrantable(token: Token, amounts: iset<int>) {
    exists p :: p in amounts && Grantable(token, p)
  }

  /** Without a negative amount, goods handed out count fully against the ceiling. */
  lemma {:induction false} GrossWithoutNegatives(a: Authorizer, token: Token, attempts: seq<Attempt>,
                                                 amounts: iset<int>)
    requires AsksFor(attempts, token.tokenId, amounts) && !HasNegative(amounts)
             && SpentUnder(a.spent, token.tokenId) >= 0
    ensures var gross := Gross(attempts, DecisionsOf(a, attempts), iset{token});
            gross == 0 || SpentUnder(a.spent, token.tokenId) + gross <= Ceiling(token)
    decreases |attempts|
  {
    if attempts != [] {
      var (b, d) := Authorize(a, attempts[0].token, attempts[0].amount, attempts[0].checks);
      GrossWithoutNegatives(b, token, attempts[1..], amounts);
      assert DecisionsOf(a, attempts)[1..] == DecisionsOf(b, attempts[1..]);
    }
  }

  predicate ForTerminal(token: Token, terminalId: string) {
    token.terminalId == ANY_TERMINAL || token.terminalId == terminalId
  }

  /** At another terminal, or without an amount that can be granted at all, nothing is handed out. */
  lemma {:induction false} GrossWithoutGrantable(a: Authorizer, token: Token, attempts: seq<Attempt>,
                                                 amounts: iset<int>)
    requires AsksFor(attempts, token.tokenId, amounts)
             && (!ForTerminal(token, a.terminalId) || !HasGrantable(token, amounts))
    ensures Gross(attempts, DecisionsOf(a, attempts), iset{token}) == 0
    decreases |attempts|
  {
    if attempts != [] {
      var (b, d) := Authorize(a, attempts[0].token, attempts[0].amount, attempts[0].checks);
      GrossWithoutGrantable(b, token, attempts[1..], amounts);
      assert DecisionsOf(a, attempts)[1..] == DecisionsOf(b, attempts[1..]);
    }
  }

  /** First `k` times the negative amount, then `m` times the positive one. */
  function Reopening(token: Token, n: int, p: int, k: nat, m: nat): (attempts: seq<Attempt>)
    ensures forall i :: 0 <= i < |attempts| ==> attempts[i].token == token && attempts[i].amount in {n, p}
  {
    var live := Checks(false, true, token.expiration);
    if k > 0 then [Attempt(token, n, live)] + Reopening(token, n, p, k - 1, m)
    else if m > 0 then [Attempt(token, p, live)] + Reopening(token, n, p, 0, m - 1)
    else []
  }

  /** If the negative amounts make enough room, all the positive ones are granted. */
  lemma {:induction false} ReopeningGrants(a: Authorizer, token: Token, n: int, p: int, k: nat, m: nat)
    requires ForTerminal(token, a.terminalId)
    requires n < 0 && Grantable(token, p)
    requires SpentUnder(a.spent, token.tokenId) <= token.maxFloor
    requires SpentUnder(a.spent, token.tokenId) - k + m * p <= token.maxFloor
    ensures var run := Reopening(token, n, p, k, m); Gross(run, DecisionsOf(a, run), iset{token}) == m * p
    decreases k, m
  {
    var run, live := Reopening(token, n, p, k, m), Checks(false, true, token.expiration);
    if k > 0 {
      var b := Authorize(a, token, n, live).0;
      assert run[0] == Attempt(token, n, live) && run[1..] == Reopening(token, n, p, k - 1, m);
      ReopeningGrants(b, token, n, p, k - 1, m);
      assert DecisionsOf(a, run)[1..] == DecisionsOf(b, run[1..]);
    } else if m > 0 {
      assert m * p == (m - 1) * p + p && (m - 1) * p >= 0;
      var b := Authorize(a, token, p, live).0;
      assert run[0] == Attempt(token, p, live) && run[1..] == Reopening(token, n, p, 0, m - 1);
      ReopeningGrants(b, token, n, p, 0, m - 1);
      assert DecisionsOf(a, run)[1..] == DecisionsOf(b, run[1..]);
    }
  }

  lemma Exceeds(p: nat, floor: nat)
    requires p > 0
    ensures floor < (floor + 1) * p
  {
  }

  /** Exactly when a token's ceiling caps the goods handed out under it, over all runs with amounts from a set: the
      token is not for this terminal, or no amount is negative, or no amount is grantable. */
  lemma CappedExactly(terminalId: string, token: Token, amounts: iset<int>)
    ensures Capped(terminalId, token, amounts) <==>
              !ForTerminal(token, terminalId) || !HasNegative(amounts) || !HasGrantable(token, amounts)
  {
    var a := Authorizer(terminalId, map[], 0);
    if ForTerminal(token, terminalId) && HasNegative(amounts) && HasGrantable(token, amounts) {
      var n :| n in amounts && n < 0;
      var p :| p in amounts && Grantable(token, p);
      var m := token.maxFloor + 1;
      Exceeds(p, token.maxFloor);
      ReopeningGrants(a, token, n, p, m * p, m);
      assert AsksFor(Reopening(token, n, p, m * p, m), token.tokenId, amounts);
    } else {
      forall attempts | AsksFor(attempts, token.tokenId, amounts)
        ensures Gross(attempts, DecisionsOf(a, attempts), iset{token}) <= Ceiling(token)
      {
        if HasNegative(amounts) { GrossWithoutGrantable(a, token, attempts, amounts); }
        else { GrossWithoutNegatives(a, token, attempts, amounts); }
      }
    }
  }

  function LiveAttempt(token: Token, amount: int): Attempt {
    Attempt(token, amount, Checks(false, true, token.expiration))
  }

  /** The token authority: clamps the floor and counts tokens; `nanos` is the clock at the time of issue. */
  class TokenAuthority {
    var counter: nat

    constructor ()
      ensures counter == 0
    {
      counter := 0;
    }

    method IssueToken(accountId: string, floorAmount: int, expiration: int, terminalId: string, nanos: nat)
      returns (token: Token)
      modifies this
      ensures counter == old(counter) + 1
      ensures token == Token(TokenId(accountId, nanos, counter), accountId, token.maxFloor, expiration, terminalId,
                             counter)
      ensures Issued(token)
      ensures floorAmount <= MAX_OFFLINE_FLOOR ==> token.maxFloor == floorAmount
      ensures floorAmount > MAX_OFFLINE_FLOOR ==> token.maxFloor == MAX_OFFLINE_FLOOR
    {
      var floor := floorAmount;
      if floor > MAX_OFFLINE_FLOOR {
        floor := MAX_OFFLINE_FLOOR;
      }
      counter := counter + 1;
      token := Token(TokenId(accountId, nanos, counter), accountId, floor, expiration, terminalId, counter);
    }
  }

  /** Whether a mounted filter reports a string. */
  ghost predicate Lists(filter: CompactFilter?, utf8: string -> Key, s: string)
    reads filter
    requires filter != null ==> filter.Valid()
  {
    filter != null && Copies(filter.hs, filter.buckets, ClassOf(filter.hs, utf8(s), filter.numBuckets)) > 0
  }

  class EdgeAuthorizer {
    const terminalId: string
    const utf8: string -> Key
    var spentByToken: map<string, int>
    var sequenceNum: nat
    var revocationFilter: CompactFilter?

    ghost predicate Valid()
      reads this, revocationFilter
    {
      revocationFilter != null ==> revocationFilter.Shaped()
    }

    /** The mounted filter, if any, has a bucket to look at. */
    ghost predicate Usable()
      reads this, revocationFilter
    {
      revocationFilter != null ==> revocationFilter.Valid()
    }

    ghost function Value(): Authorizer
      reads this
    {
      Authorizer(terminalId, spentByToken, sequenceNum)
    }

    /** Either the account or the token is listed. */
    ghost predicate Revoked(token: Token)
      requires Usable()
      reads this, revocationFilter
    {
      Lists(revocationFilter, utf8, token.accountId) || Lists(revocationFilter, utf8, token.tokenId)
    }

    constructor (terminalId: string, utf8: string -> Key)
      ensures Valid() && Usable() && Value() == Authorizer(terminalId, map[], 0)
      ensures this.utf8 == utf8 && revocationFilter == null
    {
      this.terminalId := terminalId;
      this.utf8 := utf8;
      spentByToken, sequenceNum, revocationFilter := map[], 0, null;
    }

    method SetRevocationFilter(filter: CompactFilter?)
      requires filter != null ==> filter.Shaped()
      modifies this`revocationFilter
      ensures Valid() && revocationFilter == filter && (Usable() <==> filter == null || filter.numBuckets > 0)
    {
      revocationFilter := filter;
    }

    method ResetSpentCache()
      modifies this`spentByToken
      ensures Value() == old(Value()).(spent := map[])
    {
      spentByToken := map[];
    }

    /** Decides exactly like the model, the revocation check being the lookup in the mounted filter. None stands for the
        failure of a lookup in a filter without buckets. */
    method AuthorizeOffline(token: Token, amount: int, genuine: bool, now: int) returns (d: Option<Decision>)
      requires Valid()
      modifies this`spentByToken, this`sequenceNum
      ensures Valid() && revocationFilter == old(revocationFilter)
      ensures d.Some? <==> old(Usable())
      ensures d.Some? ==>
                (Value(), d.value)
                == Authorize(old(Value()), token, amount,
                             Checks(old(Lists(revocationFilter, utf8, token.accountId)
                                        || Lists(revocationFilter, utf8, token.tokenId)), genuine, now))
      ensures d.None? ==> Value() == old(Value())
    {
      if revocationFilter != null {
        if revocationFilter.numBuckets == 0 {
          return None;
        }
        var account := revocationFilter.Contains(utf8(token.accountId));
        if account {
          return Some(Refused(RevokedAtEdge));
        }
        var card := revocationFilter.Contains(utf8(token.tokenId));
        if card {
          return Some(Refused(RevokedAtEdge));
        }
      }
      if now > token.expiration {
        return Some(Refused(TokenInvalid));
      }
      if token.terminalId != ANY_TERMINAL && token.terminalId != terminalId {
        return Some(Refused(TokenInvalid));
      }
      if !genuine {
        return Some(Refused(TokenInvalid));
      }
      if amount > token.maxFloor || amount > MAX_OFFLINE_FLOOR {
        return Some(Refused(FloorLimitExceeded));
      }
      var spent := SpentUnder(spentByToken, token.tokenId);
      if spent + amount > token.maxFloor {
        return Some(Refused(FloorLimitExceeded));
      }
      spentByToken := spentByToken[token.tokenId := spent + amount];
      sequenceNum := sequenceNum + 1;
      d := Some(Granted(sequenceNum, token.maxFloor - (spent + amount)));
    }
  }

  /** Once a card's account or token id was inserted into the filter and no failed insertion pushed out an item of its
      class, the filter lists it. */
  ghost predicate Blocked(hs: Hashing, utf8: string -> Key, end: Buckets, s: string)
    requires |end| > 0
  {
    Copies(hs, end, ClassOf(hs, utf8(s), |end|)) > 0
  }

  /** A revoked card stays blocked: once the account or the id of a plain token was inserted into the filter and no
      failed insertion pushed out an item of its class, whatever is shown on the strength of its signature is
      refused. */
  lemma RevokedStaysBlocked(hs: Hashing, utf8: string -> Key, states: seq<Buckets>, log: seq<Insertion>,
                            lefts: seq<Class>, i: nat, card: string, t: Token, a: Authorizer, shown: Token,
                            amount: int, genuine: bool, now: int)
    requires CompactFilters.Run(hs, states, log, lefts) && i < |log| && log[i].key == utf8(card)
    requires Issued(t) && Plain(t) && (card == t.accountId || card == t.tokenId) && TokenText(shown) == TokenText(t)
    requires var c := ClassOf(hs, utf8(card), |states[|log|]|);
             forall j :: 0 <= j < |log| ==> log[j].ok || lefts[j] != c
    ensures var end := states[|log|];
            Authorize(a, shown, amount, Checks(Blocked(hs, utf8, end, shown.accountId)
                                               || Blocked(hs, utf8, end, shown.tokenId),
                                               genuine, now)) == (a, Refused(RevokedAtEdge))
  {
    PlainFixed(t, shown);
    NoFalseNegatives(hs, states, log, lefts, i);
  }

  /** The attempt is refused because the filter lists its account or its id. */
  ghost predicate RefusedAsRevoked(listed: string -> bool, a: Authorizer, at: Attempt) {
    var k := at.checks.(revoked := listed(at.token.accountId) || listed(at.token.tokenId));
    Authorize(a, at.token, at.amount, k) == (a, Refused(RevokedAtEdge))
  }

  /** As long as the account is listed, whatever else is, all that is shown on the strength of this signature is
      refused as revoked. */
  ghost predicate RevocationHolds(t: Token) {
    forall listed: string -> bool, a: Authorizer, at: Attempt ::
      listed(t.accountId) && at.token in Readings(t) ==> RefusedAsRevoked(listed, a, at)
  }

  lemma UnlistedReading(t: Token, u: Token)
    requires u in Readings(t) && u.accountId != t.accountId && u.tokenId != t.accountId
    ensures !RevocationHolds(t)
  {
    var listed := (s: string) => s == t.accountId;
    assert listed(t.accountId) && !RefusedAsRevoked(listed, Authorizer("", map[], 0), LiveAttempt(u, 0));
  }

  /** Exactly for which issued tokens the revocation of the account binds the signature: the plain ones. */
  lemma RevocationExactly(t: Token)
    requires Issued(t)
    ensures RevocationHolds(t) <==> Plain(t)
  {
    if Plain(t) {
      forall u: Token | u in Readings(t) ensures u == t { PlainFixed(t, u); }
    } else {
      var u := SecondReading(t);
      UnlistedReading(t, u);
    }
  }
}
