/** What one signature is worth: all readings of its text together, at one terminal and over a fleet of them. */
module TokenCaps {
  import opened Sums
  import opened ColonTexts
  import opened TokenTexts
  import opened OfflineAuth

  /** At every terminal, all tokens that one signature is good for hand out together no more than the ceiling that was
      signed, if nobody asks for a negative amount. */
  ghost predicate SignatureCapped(t: Token) {
    forall terminalId: string, attempts: seq<Attempt> :: NonNegative(attempts) ==>
      Gross(attempts, DecisionsOf(Authorizer(terminalId, map[], 0), attempts), Readings(t)) <= Ceiling(t)
  }

  lemma PlainCapped(t: Token)
    requires Issued(t) && Plain(t)
    ensures SignatureCapped(t)
  {
    forall u: Token | u in Readings(t) ensures u == t { PlainFixed(t, u); }
    assert Readings(t) == iset{t};
    forall terminalId: string, attempts: seq<Attempt> | NonNegative(attempts)
      ensures Gross(attempts, DecisionsOf(Authorizer(terminalId, map[], 0), attempts), Readings(t)) <= Ceiling(t)
    {
      var amounts := iset i | 0 <= i < |attempts| :: attempts[i].amount;
      GrossWithoutNegatives(Authorizer(terminalId, map[], 0), t, attempts, amounts);
    }
  }

  /** Whatever is granted on the strength of this signature is granted to the token it was made for, within its account,
      floor, expiration and terminal. */
  ghost predicate GrantsAuthentic(t: Token) {
    forall a: Authorizer, at: Attempt ::
      at.token in Readings(t) && Authorize(a, at.token, at.amount, at.checks).1.Granted? ==> at.token == t
  }

  /** Any reading is granted somewhere: at its terminal, in time, for an amount that its floor allows. */
  lemma SomewhereGranted(u: Token)
    ensures var amount := if u.maxFloor < 0 then u.maxFloor else 0;
            var at := LiveAttempt(u, amount);
            Authorize(Authorizer(u.terminalId, map[], 0), at.token, at.amount, at.checks).1.Granted?
  {
  }

  /** Exactly for which issued tokens a signature is good for nothing else: the plain ones. */
  lemma GrantsAuthenticExactly(t: Token)
    requires Issued(t)
    ensures GrantsAuthentic(t) <==> Plain(t)
  {
    if Plain(t) {
      forall u: Token | u in Readings(t) ensures u == t { PlainFixed(t, u); }
    } else {
      var u := SecondReading(t);
      SomewhereGranted(u);
      assert u in Readings(t) && u != t;
    }
  }

  /** Two tokens with different ids and room for their amounts, for one terminal: both amounts are granted. */
  lemma BothGranted(terminalId: string, u: Token, x: int, v: Token, y: int)
    requires ForTerminal(u, terminalId) && ForTerminal(v, terminalId) && u.tokenId != v.tokenId
    requires Grantable(u, x) && Grantable(v, y)
    ensures var run := [LiveAttempt(u, x), LiveAttempt(v, y)];
            var ds := DecisionsOf(Authorizer(terminalId, map[], 0), run);
            ds[0].Granted? && ds[1].Granted?
  {
    var a, run := Authorizer(terminalId, map[], 0), [LiveAttempt(u, x), LiveAttempt(v, y)];
    var b := Authorize(a, u, x, run[0].checks).0;
    assert run[1..] == [run[1]];
    assert DecisionsOf(a, run)[1] == DecisionsOf(b, [run[1]])[0];
  }

  lemma GrossOfTwo(attempts: seq<Attempt>, ds: seq<Decision>, tokens: iset<Token>)
    requires |attempts| == 2 && |ds| == 2 && ds[0].Granted? && ds[1].Granted?
    requires attempts[0].token in tokens && attempts[1].token in tokens && attempts[0].amount > 0
             && attempts[1].amount > 0
    ensures Gross(attempts, ds, tokens) == attempts[0].amount + attempts[1].amount
  {
    assert attempts[1..][1..] == [];
    assert Gross(attempts[1..], ds[1..], tokens) == attempts[1].amount;
  }

  /** Two readings with different ids for one terminal that together hold more than was signed. */
  lemma TwoReadingsBreakCap(t: Token, terminalId: string, u: Token, x: int, v: Token, y: int)
    requires u in Readings(t) && v in Readings(t) && u.tokenId != v.tokenId
    requires ForTerminal(u, terminalId) && ForTerminal(v, terminalId) && Grantable(u, x) && Grantable(v, y)
             && x + y > Ceiling(t)
    ensures !SignatureCapped(t)
  {
    var run := [LiveAttempt(u, x), LiveAttempt(v, y)];
    BothGranted(terminalId, u, x, v, y);
    GrossOfTwo(run, DecisionsOf(Authorizer(terminalId, map[], 0), run), Readings(t));
    assert NonNegative(run);
  }

  /** An account with a colon: the token and its other reading, both with the full floor, at the token's own
      terminal. */
  lemma ColonAccountBreaksCap(t: Token)
    requires Issued(t) && t.maxFloor > 0 && COLON in t.accountId
    ensures !SignatureCapped(t)
  {
    var nanos: nat :| t.tokenId == TokenId(t.accountId, nanos, t.sequenceCounter);
    var p, q := FirstColon(t.accountId);
    var u := SplitAccount(t, p, q, nanos);
    SplitAccountReads(t, p, q, nanos);
    TwoReadingsBreakCap(t, t.terminalId, t, t.maxFloor, u, t.maxFloor);
  }

  /** A terminal that starts with a number: two readings with the expiration time as their floor, at another
      terminal. */
  lemma NumberTerminalBreaksCap(t: Token)
    requires Issued(t) && 0 < t.maxFloor <= t.expiration && NumberFirst(t.terminalId)
    ensures !SignatureCapped(t)
  {
    var k: int, rest: string :| t.terminalId == Joined(Decimal(k), rest);
    var u := ShiftOne(t, k, rest);
    ShiftOneReads(t, k, rest);
    var v := u.(tokenId := Joined(t.tokenId, t.accountId), accountId := Decimal(t.maxFloor));
    var terms := Terms(v.maxFloor, v.expiration, v.terminalId, v.sequenceCounter);
    Regroup(t.accountId, Decimal(t.maxFloor), terms);
    Regroup(t.tokenId, t.accountId, Joined(Decimal(t.maxFloor), terms));
    TwoReadingsBreakCap(t, rest, u, t.maxFloor, v, t.maxFloor);
  }

  /** One of the tokens for each of some ids, all accepted at this terminal and with a positive floor. */
  ghost predicate Hoard(tokens: iset<Token>, terminalId: string, best: map<string, Token>) {
    forall id :: id in best ==>
      best[id] in tokens && best[id].tokenId == id && ForTerminal(best[id], terminalId) && best[id].maxFloor > 0
  }

  ghost function Floor(): Token -> int {
    (u: Token) => u.maxFloor
  }

  ghost function Floors(best: map<string, Token>): int {
    SumBy(best, Floor())
  }

  ghost function Amount(): int -> int {
    (x: int) => x
  }

  ghost function Gains(gained: map<string, int>): int {
    SumBy(gained, Amount())
  }

  /** What was gained so far under each id is covered by the floor of the reading last granted under it, and counted as
      spent. */
  ghost predicate Tallied(a: Authorizer, tokens: iset<Token>, gained: map<string, int>, best: map<string, Token>) {
    && gained.Keys == best.Keys && Hoard(tokens, a.terminalId, best)
    && (forall id :: id in gained ==> gained[id] <= best[id].maxFloor && gained[id] <= SpentUnder(a.spent, id))
    && (forall id :: SpentUnder(a.spent, id) >= 0)
  }

  lemma GrantSpends(a: Authorizer, at: Attempt) returns (b: Authorizer)
    requires Authorize(a, at.token, at.amount, at.checks).1.Granted?
    ensures b == Authorize(a, at.token, at.amount, at.checks).0 && b.terminalId == a.terminalId
    ensures forall id ::
              SpentUnder(b.spent, id) == SpentUnder(a.spent, id) + (if id == at.token.tokenId then at.amount else 0)
    ensures SpentUnder(b.spent, at.token.tokenId) <= at.token.maxFloor && ForTerminal(at.token, b.terminalId)
  {
    b := Authorize(a, at.token, at.amount, at.checks).0;
  }

  /** A grant that counts: the token granted covers all that was gained under its id. */
  lemma GrantTallied(a: Authorizer, tokens: iset<Token>, u: Token, x: int, b: Authorizer, gained: map<string, int>,
                     best: map<string, Token>)
    returns (gained': map<string, int>, best': map<string, Token>)
    requires Tallied(a, tokens, gained, best) && x > 0 && u in tokens && b.terminalId == a.terminalId
    requires forall id :: SpentUnder(b.spent, id) == SpentUnder(a.spent, id) + (if id == u.tokenId then x else 0)
    requires SpentUnder(b.spent, u.tokenId) <= u.maxFloor && ForTerminal(u, b.terminalId)
    ensures Tallied(b, tokens, gained', best') && Gains(gained') == Gains(gained) + x
  {
    var id := u.tokenId;
    var before := if id in gained then gained[id] else 0;
    assert 0 <= SpentUnder(a.spent, id) && before <= SpentUnder(a.spent, id);
    gained', best' := gained[id := before + x], best[id := u];
    SumByUpdate(gained, id, before + x, Amount());
  }

  lemma NothingTakenBack(a: Authorizer, at: Attempt) returns (b: Authorizer)
    requires at.amount >= 0
    ensures b == Authorize(a, at.token, at.amount, at.checks).0 && b.terminalId == a.terminalId
    ensures forall id :: SpentUnder(b.spent, id) >= SpentUnder(a.spent, id)
  {
    b := Authorize(a, at.token, at.amount, at.checks).0;
  }

  /** Any other attempt for a non-negative amount takes nothing back. */
  lemma OtherTallied(a: Authorizer, tokens: iset<Token>, b: Authorizer, gained: map<string, int>,
                     best: map<string, Token>)
    requires Tallied(a, tokens, gained, best) && b.terminalId == a.terminalId
    requires forall id :: SpentUnder(b.spent, id) >= SpentUnder(a.spent, id)
    ensures Tallied(b, tokens, gained, best)
  {
    forall id ensures SpentUnder(b.spent, id) >= 0 { assert SpentUnder(a.spent, id) >= 0; }
  }

  lemma {:induction false} RunTallied(a: Authorizer, tokens: iset<Token>, attempts: seq<Attempt>,
                                      gained: map<string, int>, best: map<string, Token>)
    returns (gained': map<string, int>, best': map<string, Token>)
    requires Tallied(a, tokens, gained, best) && NonNegative(attempts)
    ensures gained'.Keys == best'.Keys && Hoard(tokens, a.terminalId, best')
    ensures forall id :: id in gained' ==> gained'[id] <= best'[id].maxFloor
    ensures Gains(gained') == Gains(gained) + Gross(attempts, DecisionsOf(a, attempts), tokens)
    decreases |attempts|
  {
    gained', best' := gained, best;
    if attempts != [] {
      var (b, d) := Authorize(a, attempts[0].token, attempts[0].amount, attempts[0].checks);
      if d.Granted? && attempts[0].token in tokens && attempts[0].amount > 0 {
        var n := GrantSpends(a, attempts[0]);
        gained', best' := GrantTallied(a, tokens, attempts[0].token, attempts[0].amount, n, gained, best);
      } else {
        var n := NothingTakenBack(a, attempts[0]);
        OtherTallied(a, tokens, n, gained, best);
      }
      gained', best' := RunTallied(b, tokens, attempts[1..], gained', best');
      assert DecisionsOf(a, attempts)[1..] == DecisionsOf(b, attempts[1..]);
    }
  }

  lemma {:induction false} GainsWithinFloors(gained: map<string, int>, best: map<string, Token>)
    requires gained.Keys == best.Keys && forall id :: id in gained ==> gained[id] <= best[id].maxFloor
    ensures Gains(gained) <= Floors(best)
    decreases |gained|
  {
    if gained == map[] {
      assert best == map[];
    } else {
      var id :| id in gained;
      SumBySplit(gained, id, Amount());
      SumBySplit(best, id, Floor());
      assert (gained - {id}).Keys == (best - {id}).Keys;
      GainsWithinFloors(gained - {id}, best - {id});
    }
  }

  /** Whatever a terminal hands out on some tokens is covered by the floors of such tokens with different ids. */
  lemma GrossWithinHoard(terminalId: string, tokens: iset<Token>, attempts: seq<Attempt>)
    returns (best: map<string, Token>)
    requires NonNegative(attempts)
    ensures Hoard(tokens, terminalId, best)
    ensures Gross(attempts, DecisionsOf(Authorizer(terminalId, map[], 0), attempts), tokens) <= Floors(best)
  {
    var gained;
    gained, best := RunTallied(Authorizer(terminalId, map[], 0), tokens, attempts, map[], map[]);
    GainsWithinFloors(gained, best);
  }

  /** One cent at a time. */
  function Cents(u: Token, k: nat): (run: seq<Attempt>)
    ensures NonNegative(run)
  {
    if k == 0 then [] else [LiveAttempt(u, 1)] + Cents(u, k - 1)
  }

  lemma {:induction false} CentsGranted(a: Authorizer, tokens: iset<Token>, u: Token, k: nat)
    requires u in tokens && ForTerminal(u, a.terminalId) && 0 <= SpentUnder(a.spent, u.tokenId)
    requires SpentUnder(a.spent, u.tokenId) + k <= u.maxFloor
    ensures Gross(Cents(u, k), DecisionsOf(a, Cents(u, k)), tokens) == k
    ensures After(a, Cents(u, k)).terminalId == a.terminalId
    ensures forall id :: id != u.tokenId ==> SpentUnder(After(a, Cents(u, k)).spent, id) == SpentUnder(a.spent, id)
    decreases k
  {
    if k > 0 {
      var run := Cents(u, k);
      var b := Authorize(a, u, 1, run[0].checks).0;
      assert run[1..] == Cents(u, k - 1);
      CentsGranted(b, tokens, u, k - 1);
      assert DecisionsOf(a, run)[1..] == DecisionsOf(b, run[1..]);
    }
  }

  lemma {:induction false} GrossAppend(a: Authorizer, s: seq<Attempt>, r: seq<Attempt>, tokens: iset<Token>)
    ensures Gross(s + r, DecisionsOf(a, s + r), tokens)
         == Gross(s, DecisionsOf(a, s), tokens) + Gross(r, DecisionsOf(After(a, s), r), tokens)
    decreases |s|
  {
    if s == [] {
      assert s + r == r;
    } else {
      var b := Authorize(a, s[0].token, s[0].amount, s[0].checks).0;
      assert (s + r)[1..] == s[1..] + r;
      GrossAppend(b, s[1..], r, tokens);
      assert DecisionsOf(a, s + r)[1..] == DecisionsOf(b, s[1..] + r);
      assert DecisionsOf(a, s)[1..] == DecisionsOf(b, s[1..]);
    }
  }

  /** A terminal at which nothing was spent under the ids of a hoard hands out all of its floors. */
  lemma {:induction false} HoardSpent(a: Authorizer, tokens: iset<Token>, best: map<string, Token>)
    returns (run: seq<Attempt>)
    requires Hoard(tokens, a.terminalId, best) && forall id :: id in best ==> SpentUnder(a.spent, id) == 0
    ensures NonNegative(run) && Gross(run, DecisionsOf(a, run), tokens) == Floors(best)
    decreases |best|
  {
    if best == map[] {
      run := [];
    } else {
      var id :| id in best;
      var u := best[id];
      var head := Cents(u, u.maxFloor);
      CentsGranted(a, tokens, u, u.maxFloor);
      var rest := HoardSpent(After(a, head), tokens, best - {id});
      run := head + rest;
      GrossAppend(a, head, rest, tokens);
      SumBySplit(best, id, Floor());
    }
  }

  /** At every terminal the readings with different ids have floors that add up to no more than the ceiling that was
      signed. */
  ghost predicate HoardsCapped(t: Token) {
    forall terminalId: string, best: map<string, Token> :: Hoard(Readings(t), terminalId, best)
        ==> Floors(best) <= Ceiling(t)
  }

  /** Exactly when one signature hands out no more than the ceiling that was signed, at every terminal and in every run
      without negative amounts: if the floors that its text can be read with, one for each id, add up to no more at any
      terminal. */
  lemma SignatureCappedExactly(t: Token)
    ensures SignatureCapped(t) <==> HoardsCapped(t)
  {
    if HoardsCapped(t) {
      forall terminalId: string, attempts: seq<Attempt> | NonNegative(attempts)
        ensures Gross(attempts, DecisionsOf(Authorizer(terminalId, map[], 0), attempts), Readings(t)) <= Ceiling(t)
      {
        var best := GrossWithinHoard(terminalId, Readings(t), attempts);
      }
    }
    if SignatureCapped(t) {
      forall terminalId: string, best: map<string, Token> | Hoard(Readings(t), terminalId, best)
        ensures Floors(best) <= Ceiling(t) {
        var run := HoardSpent(Authorizer(terminalId, map[], 0), Readings(t), best);
      }
    }
  }

  /** For a token with a positive floor that expires later than its floor counted in seconds and whose terminal has no
      numbers inside, this is the case exactly if it is plain. */
  lemma PlainExactly(t: Token)
    requires Issued(t) && 0 < t.maxFloor <= t.expiration && !NumbersInside(t.terminalId)
    ensures SignatureCapped(t) <==> Plain(t)
  {
    if Plain(t) {
      PlainCapped(t);
    } else if COLON in t.accountId {
      ColonAccountBreaksCap(t);
    } else {
      NumberTerminalBreaksCap(t);
    }
  }

  /** What a fleet of agents, each with its own spending, hands out on these tokens. */
  ghost function FleetGross(fleet: seq<string>, runs: seq<seq<Attempt>>, tokens: iset<Token>): nat
    requires |runs| == |fleet|
    decreases |fleet|
  {
    if fleet == [] then 0
    else Gross(runs[0], DecisionsOf(Authorizer(fleet[0], map[], 0), runs[0]), tokens)
         + FleetGross(fleet[1..], runs[1..], tokens)
  }

  /** The agents of the fleet that accept the token. */
  function Accepting(fleet: seq<string>, t: Token): nat {
    if fleet == [] then 0 else (if ForTerminal(t, fleet[0]) then 1 else 0) + Accepting(fleet[1..], t)
  }

  ghost predicate AllNonNegative(runs: seq<seq<Attempt>>) {
    forall i :: 0 <= i < |runs| ==> NonNegative(runs[i])
  }

  lemma AgentGross(terminalId: string, t: Token, run: seq<Attempt>)
    requires Issued(t) && Plain(t) && NonNegative(run)
    ensures Gross(run, DecisionsOf(Authorizer(terminalId, map[], 0), run), Readings(t))
         <= if ForTerminal(t, terminalId) then Ceiling(t) else 0
  {
    PlainCapped(t);
    forall u: Token | u in Readings(t) ensures u == t { PlainFixed(t, u); }
    assert Readings(t) == iset{t};
    if !ForTerminal(t, terminalId) {
      var amounts := iset i | 0 <= i < |run| :: run[i].amount;
      GrossWithoutGrantable(Authorizer(terminalId, map[], 0), t, run, amounts);
    }
  }

  lemma AcceptingHead(fleet: seq<string>, t: Token, x: nat)
    requires fleet != []
    ensures Accepting(fleet, t) * x == (if ForTerminal(t, fleet[0]) then x else 0) + Accepting(fleet[1..], t) * x
  {
    var n := Accepting(fleet[1..], t);
    assert (1 + n) * x == x + n * x;
  }

  lemma FleetHead(fleet: seq<string>, runs: seq<seq<Attempt>>, tokens: iset<Token>)
    requires fleet != [] && |runs| == |fleet|
    ensures FleetGross(fleet, runs, tokens)
         == Gross(runs[0], DecisionsOf(Authorizer(fleet[0], map[], 0), runs[0]), tokens)
             + FleetGross(fleet[1..], runs[1..], tokens)
  {
  }

  /** A fleet hands out at most the ceiling once for each agent that accepts the token ... */
  lemma {:induction false} FleetWithin(fleet: seq<string>, t: Token, runs: seq<seq<Attempt>>)
    requires Issued(t) && Plain(t) && |runs| == |fleet| && AllNonNegative(runs)
    ensures FleetGross(fleet, runs, Readings(t)) <= Accepting(fleet, t) * Ceiling(t)
    decreases |fleet|
  {
    if fleet != [] {
      AgentGross(fleet[0], t, runs[0]);
      FleetWithin(fleet[1..], t, runs[1..]);
      FleetHead(fleet, runs, Readings(t));
      AcceptingHead(fleet, t, Ceiling(t));
    }
  }

  /** The full floor at an agent that accepts the token, nothing at any other. */
  function FirstRun(terminalId: string, t: Token): seq<Attempt> {
    if ForTerminal(t, terminalId) then [LiveAttempt(t, t.maxFloor)] else []
  }

  lemma FullFloor(terminalId: string, t: Token)
    requires Issued(t) && t.maxFloor > 0
    ensures NonNegative(FirstRun(terminalId, t))
    ensures var run := FirstRun(terminalId, t);
            Gross(run, DecisionsOf(Authorizer(terminalId, map[], 0), run), Readings(t))
            == if ForTerminal(t, terminalId) then t.maxFloor else 0
  {
    var run := FirstRun(terminalId, t);
    if ForTerminal(t, terminalId) { assert run[1..] == []; }
  }

  lemma OneMoreAgent(fleet: seq<string>, t: Token, first: seq<Attempt>, rest: seq<seq<Attempt>>)
    requires fleet != [] && |rest| == |fleet[1..]| && AllNonNegative(rest) && NonNegative(first)
    ensures |[first] + rest| == |fleet| && AllNonNegative([first] + rest)
    ensures FleetGross(fleet, [first] + rest, Readings(t))
         == Gross(first, DecisionsOf(Authorizer(fleet[0], map[], 0), first), Readings(t))
            + FleetGross(fleet[1..], rest, Readings(t))
  {
    assert ([first] + rest)[1..] == rest;
  }

  /** ... and can hand out just as much. */
  lemma {:induction false} FleetReaches(fleet: seq<string>, t: Token) returns (runs: seq<seq<Attempt>>)
    requires Issued(t) && t.maxFloor > 0
    ensures |runs| == |fleet| && AllNonNegative(runs)
    ensures FleetGross(fleet, runs, Readings(t)) == Accepting(fleet, t) * t.maxFloor
    decreases |fleet|
  {
    if fleet == [] {
      runs := [];
    } else {
      var rest := FleetReaches(fleet[1..], t);
      runs := [FirstRun(fleet[0], t)] + rest;
      FullFloor(fleet[0], t);
      OneMoreAgent(fleet, t, FirstRun(fleet[0], t), rest);
      AcceptingHead(fleet, t, t.maxFloor);
    }
  }

  /** However the requests are spread over the fleet, no more is handed out than the ceiling that was signed. */
  ghost predicate FleetCapped(fleet: seq<string>, t: Token) {
    forall runs: seq<seq<Attempt>> :: |runs| == |fleet| && AllNonNegative(runs) ==>
      FleetGross(fleet, runs, Readings(t)) <= Ceiling(t)
  }

  lemma TimesCeiling(n: nat, x: nat)
    requires x > 0
    ensures n * x <= x <==> n <= 1
  {
    if n >= 2 { assert n * x == 2 * x + (n - 2) * x; }
  }

  lemma AtMostOnce(n: nat, x: nat, gross: nat)
    requires gross <= n * x && (x == 0 || n <= 1)
    ensures gross <= x
  {
    if x > 0 { TimesCeiling(n, x); }
  }

  lemma FewAcceptCapped(fleet: seq<string>, t: Token, runs: seq<seq<Attempt>>)
    requires Issued(t) && Plain(t) && (t.maxFloor <= 0 || Accepting(fleet, t) <= 1) && |runs| == |fleet|
             && AllNonNegative(runs)
    ensures FleetGross(fleet, runs, Readings(t)) <= Ceiling(t)
  {
    FleetWithin(fleet, t, runs);
    AtMostOnce(Accepting(fleet, t), Ceiling(t), FleetGross(fleet, runs, Readings(t)));
  }

  /** Exactly when a fleet, each agent of which keeps its own account of what was spent, stays within the ceiling of a
      plain token: if it has no floor, or at most one agent accepts it. */
  lemma FleetCappedExactly(fleet: seq<string>, t: Token)
    requires Issued(t) && Plain(t)
    ensures FleetCapped(fleet, t) <==> t.maxFloor <= 0 || Accepting(fleet, t) <= 1
  {
    if t.maxFloor <= 0 || Accepting(fleet, t) <= 1 {
      forall runs: seq<seq<Attempt>> | |runs| == |fleet| && AllNonNegative(runs)
        ensures FleetGross(fleet, runs, Readings(t)) <= Ceiling(t)
      {
        FewAcceptCapped(fleet, t, runs);
      }
    } else {
      var runs := FleetReaches(fleet, t);
      TimesCeiling(Accepting(fleet, t), t.maxFloor);
    }
  }
}
