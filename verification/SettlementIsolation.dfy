/** When the offline allowance alone carries a customer's replayed spending. */
module SettlementIsolation {
  import opened Sums
  import opened Queue
  import opened LedgerModel
  import opened LedgerConservation
  import opened WalModel
  import opened SettlementModel
  import opened SettlementBooks

  /** The account lost `debit` from its allowance and gained `credit` online. */
  ghost predicate Drew(a: Account, b: Account, debit: int, credit: int) {
    b == a.(offline := a.offline - debit, online := a.online + credit)
  }

  lemma CoveredOffline(l: State, tx: Tx)
    requires Proper(tx) && Get(l.accounts, tx.accountId).offline >= Payout(tx)
    ensures var p := tx.accountId;
            Drew(Get(l.accounts, p), Get(SettleOnLedger(true, l, tx).0.accounts, p), Payout(tx), CreditTo(p)(tx))
  {
  }

  lemma OthersDoNotDraw(l: State, tx: Tx, p: string)
    requires Proper(tx) && tx.accountId != p && p != RESERVE
    ensures Drew(Get(l.accounts, p), Get(SettleOnLedger(true, l, tx).0.accounts, p), 0, CreditTo(p)(tx))
  {
    SettleMoves(l, tx, p);
  }

  lemma SettleDraws(c: Codec, w: World, tx: Tx, p: string)
    requires Proper(tx) && !w.hung && p != RESERVE
    requires SumSeq(Fresh(c, w.seen, [tx]), DebitOf(p)) <= Get(w.ledger.accounts, p).offline
    ensures var news := Fresh(c, w.seen, [tx]);
            Drew(Get(w.ledger.accounts, p), Get(Settle(true, c, w, tx).ledger.accounts, p),
                 SumSeq(news, DebitOf(p)), SumSeq(news, CreditTo(p)))
  {
    SumOne(tx, DebitOf(p));
    SumOne(tx, CreditTo(p));
    assert Fresh(c, w.seen, [tx]) == if HashOf(c, tx) in w.seen then [] else [tx];
    assert SumSeq<Tx>([], CreditTo(p)) == 0 && SumSeq<Tx>([], DebitOf(p)) == 0;
    if HashOf(c, tx) !in w.seen {
      if tx.accountId == p { CoveredOffline(w.ledger, tx); } else { OthersDoNotDraw(w.ledger, tx, p); }
    }
  }

  lemma {:induction false} FreshDebits(c: Codec, seen: set<string>, batch: seq<Tx>, p: string)
    requires AllProper(batch)
    ensures SumSeq(Fresh(c, seen, batch), DebitOf(p)) >= 0
    decreases |batch|
  {
    if batch != [] {
      FreshHead(c, seen, batch);
      FreshDebits(c, seen + {HashOf(c, batch[0])}, batch[1..], p);
      SumSeqAppend(Fresh(c, seen, [batch[0]]), Fresh(c, seen + {HashOf(c, batch[0])}, batch[1..]), DebitOf(p));
      SumOne(batch[0], DebitOf(p));
      assert Fresh(c, seen, [batch[0]]) == if HashOf(c, batch[0]) in seen then [] else [batch[0]];
      assert SumSeq<Tx>([], DebitOf(p)) == 0;
    }
  }

  lemma {:induction false} AllowanceSuffices(c: Codec, w: World, batch: seq<Tx>, p: string)
    requires AllProper(batch) && !w.hung && p != RESERVE
    requires SumSeq(Fresh(c, w.seen, batch), DebitOf(p)) <= Get(w.ledger.accounts, p).offline
    ensures var news := Fresh(c, w.seen, batch);
            Drew(Get(w.ledger.accounts, p), Get(SettleAll(true, c, w, batch).ledger.accounts, p),
                 SumSeq(news, DebitOf(p)), SumSeq(news, CreditTo(p)))
    decreases |batch|
  {
    if batch == [] {
      assert SumSeq<Tx>([], CreditTo(p)) == 0 && SumSeq<Tx>([], DebitOf(p)) == 0;
    } else {
      var m := Settle(true, c, w, batch[0]);
      var head, rest := Fresh(c, w.seen, [batch[0]]), Fresh(c, m.seen, batch[1..]);
      FreshSplit(c, true, w, batch);
      SumSeqAppend(head, rest, DebitOf(p));
      SumSeqAppend(head, rest, CreditTo(p));
      FreshDebits(c, m.seen, batch[1..], p);
      SettleDraws(c, w, batch[0], p);
      SettleOneBooked(c, w, batch[0]);
      AllowanceSuffices(c, m, batch[1..], p);
    }
  }

  /** A replay takes all of a customer's fresh spending out of the offline allowance exactly when the allowance was set
      high enough for it; the customer's online balance is then not debited at all, whatever else is replayed. */
  lemma AllowanceIsolates(c: Codec, w: World, batch: seq<Tx>, p: string)
    requires AllProper(batch) && !w.hung && p != RESERVE && Solvent(w.ledger.accounts)
    ensures var a, b := Get(w.ledger.accounts, p), Get(SettleAll(true, c, w, batch).ledger.accounts, p);
            var news := Fresh(c, w.seen, batch);
            && (b.offline == a.offline - SumSeq(news, DebitOf(p)) <==> SumSeq(news, DebitOf(p)) <= a.offline)
            && (SumSeq(news, DebitOf(p)) <= a.offline ==> b.online == a.online + SumSeq(news, CreditTo(p)))
  {
    var e := SettleAll(true, c, w, batch);
    ReplayStaysSolvent(c, w, batch);
    if p in e.ledger.accounts { assert SolventAccount(p, e.ledger.accounts[p]); }
    if SumSeq(Fresh(c, w.seen, batch), DebitOf(p)) <= Get(w.ledger.accounts, p).offline {
      AllowanceSuffices(c, w, batch, p);
    }
  }
}
