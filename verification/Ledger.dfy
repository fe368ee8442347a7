/** The ledger as the mutable object of the source; every method is proved equal to its atomic step. */
module Ledger {
  import opened Sums
  import opened LedgerModel
  import opened LedgerConservation

  class ConservingLedger {
    var accounts: map<string, Account>
    var entries: seq<Entry>
    var entryCounter: nat

    ghost predicate Valid()
      reads this
    {
      entryCounter == |entries|
    }

    ghost function Value(): State
      reads this
    {
      State(accounts, entries)
    }

    constructor ()
      ensures Valid() && Value() == NEW_LEDGER
      ensures accounts.Keys == {"SYSTEM_ESCROW", "SYSTEM_CLEARING", "ACC_MERCHANT_DEFICIT_RESERVE"}
      ensures (forall id :: id in accounts ==> accounts[id] == Account(0, 0, 0)) && entries == []
    {
      accounts := map[ESCROW := EMPTY_ACCOUNT, CLEARING := EMPTY_ACCOUNT, RESERVE := EMPTY_ACCOUNT];
      entries := [];
      entryCounter := 0;
    }

    method AppendEntry(kind: EntryType, debit: string, credit: string, amount: int, txId: string)
      requires Valid()
      modifies this`entries, this`entryCounter
      ensures Valid() && Value() == Post(old(Value()), accounts, kind, debit, credit, amount, txId)
    {
      entryCounter := entryCounter + 1;
      entries := entries + [Entry(entryCounter, txId, kind, debit, credit, amount)];
    }

    method CreateAccount(id: string, initial: int)
      requires Valid()
      modifies this
      ensures Valid() && Value() == DoCreateAccount(old(Value()), id, initial).0
    {
      if id !in accounts {
        accounts := accounts[id := Account(initial, 0, 0)];
      }
    }

    method FundAccount(id: string, amount: int, txId: string) returns (out: Outcome)
      requires Valid()
      modifies this
      ensures Valid() && (Value(), out) == DoFundAccount(old(Value()), id, amount, txId)
    {
      if id !in accounts {
        return Failed(AccountNotFound);
      }
      accounts := accounts[id := accounts[id].(online := accounts[id].online + amount)];
      AppendEntry(EntryCommit, CAPITAL, id, amount, txId);
      out := Done;
    }

    method GetAccount(id: string) returns (snapshot: Option<Account>)
      ensures snapshot == (if id in accounts then Some(accounts[id]) else None)
    {
      if id !in accounts {
        return None;
      }
      snapshot := Some(accounts[id]);
    }

    method AllocateOfflineAllowance(id: string, amount: int, txId: string) returns (out: Outcome)
      requires Valid()
      modifies this
      ensures Valid() && (Value(), out) == DoAllocateOfflineAllowance(old(Value()), id, amount, txId)
    {
      if amount <= 0 {
        return Failed(InvalidAmount);
      }
      if id !in accounts {
        return Failed(AccountNotFound);
      }
      if accounts[id].online < amount {
        return Failed(InsufficientFunds);
      }
      accounts := accounts[id := accounts[id].(online := accounts[id].online - amount)];
      accounts := accounts[id := accounts[id].(offline := accounts[id].offline + amount)];
      AppendEntry(EntryReserve, id + ONLINE_SIDE, id + OFFLINE_SIDE, amount, txId);
      out := Done;
    }

    method CommitOfflineAllowance(from: string, to: string, amount: int, txId: string) returns (out: Outcome)
      requires Valid()
      modifies this
      ensures Valid() && (Value(), out) == DoCommitOfflineAllowance(old(Value()), from, to, amount, txId)
    {
      if amount <= 0 {
        return Failed(InvalidAmount);
      }
      if from !in accounts {
        return Failed(AccountNotFound);
      }
      if to !in accounts {
        CreateAccount(to, 0);
      }
      if accounts[from].offline < amount {
        return Failed(InsufficientFunds);
      }
      accounts := accounts[from := accounts[from].(offline := accounts[from].offline - amount)];
      accounts := accounts[to := accounts[to].(online := accounts[to].online + amount)];
      AppendEntry(EntryCommit, from + OFFLINE_SIDE, to, amount, txId);
      out := Done;
    }

    method DebitDeficitReserve(to: string, amount: int, txId: string) returns (out: Outcome)
      requires Valid()
      modifies this
      ensures Valid() && (Value(), out) == DoDebitDeficitReserve(old(Value()), to, amount, txId)
    {
      if amount <= 0 {
        return Failed(InvalidAmount);
      }
      if RESERVE !in accounts {
        CreateAccount(RESERVE, 0);
      }
      if to !in accounts {
        CreateAccount(to, 0);
      }
      if to == RESERVE {
        return Hangs;
      }
      accounts := accounts[RESERVE := accounts[RESERVE].(online := accounts[RESERVE].online - amount)];
      accounts := accounts[to := accounts[to].(online := accounts[to].online + amount)];
      AppendEntry(EntryDeficit, RESERVE, to, amount, txId);
      out := Done;
    }

    method ReserveFunds(from: string, amount: int, txId: string) returns (out: Outcome)
      requires Valid()
      modifies this
      ensures Valid() && (Value(), out) == DoReserveFunds(old(Value()), from, amount, txId)
    {
      if amount <= 0 {
        return Failed(InvalidAmount);
      }
      if from !in accounts {
        return Failed(AccountNotFound);
      }
      if accounts[from].online < amount {
        return Failed(InsufficientFunds);
      }
      accounts := accounts[from := accounts[from].(online := accounts[from].online - amount)];
      accounts := accounts[from := accounts[from].(reserved := accounts[from].reserved + amount)];
      AppendEntry(EntryReserve, from, ESCROW, amount, txId);
      out := Done;
    }

    method CommitHold(from: string, to: string, amount: int, txId: string) returns (out: Outcome)
      requires Valid()
      modifies this
      ensures Valid() && (Value(), out) == DoCommitHold(old(Value()), from, to, amount, txId)
    {
      if amount <= 0 {
        return Failed(InvalidAmount);
      }
      if from !in accounts {
        return Failed(AccountNotFound);
      }
      if to !in accounts {
        CreateAccount(to, 0);
      }
      if accounts[from].reserved < amount {
        return Failed(HoldMismatch);
      }
      accounts := accounts[from := accounts[from].(reserved := accounts[from].reserved - amount)];
      accounts := accounts[to := accounts[to].(online := accounts[to].online + amount)];
      AppendEntry(EntryCommit, ESCROW, to, amount, txId);
      out := Done;
    }

    method DirectCommit(from: string, to: string, amount: int, txId: string) returns (out: Outcome)
      requires Valid()
      modifies this
      ensures Valid() && (Value(), out) == DoDirectCommit(old(Value()), from, to, amount, txId)
    {
      if amount <= 0 {
        return Failed(InvalidAmount);
      }
      if from !in accounts {
        return Failed(AccountNotFound);
      }
      if to !in accounts {
        CreateAccount(to, 0);
      }
      if accounts[from].online < amount {
        return Failed(InsufficientFunds);
      }
      accounts := accounts[from := accounts[from].(online := accounts[from].online - amount)];
      accounts := accounts[to := accounts[to].(online := accounts[to].online + amount)];
      AppendEntry(EntryCommit, from, to, amount, txId);
      out := Done;
    }

    method ReleaseHold(from: string, amount: int, txId: string) returns (out: Outcome)
      requires Valid()
      modifies this
      ensures Valid() && (Value(), out) == DoReleaseHold(old(Value()), from, amount, txId)
    {
      if from !in accounts {
        return Failed(AccountNotFound);
      }
      if accounts[from].reserved < amount {
        return Failed(HoldMismatch);
      }
      accounts := accounts[from := accounts[from].(reserved := accounts[from].reserved - amount)];
      accounts := accounts[from := accounts[from].(online := accounts[from].online + amount)];
      AppendEntry(EntryRelease, ESCROW, from, amount, txId);
      out := Done;
    }

    method RecordDeficit(from: string, to: string, amount: int, txId: string) returns (out: Outcome)
      requires Valid()
      modifies this
      ensures Valid() && (Value(), out) == DoRecordDeficit(old(Value()), from, to, amount, txId)
    {
      if from !in accounts {
        CreateAccount(from, 0);
      }
      if to !in accounts {
        CreateAccount(to, 0);
      }
      if from == to {
        return Hangs;
      }
      accounts := accounts[from := accounts[from].(online := accounts[from].online - amount)];
      accounts := accounts[to := accounts[to].(online := accounts[to].online + amount)];
      AppendEntry(EntryDeficit, from, to, amount, txId);
      out := Done;
    }

    /** The three sums of a quiescent audit, visiting the accounts in any order. */
    method AuditConservation() returns (totalAvailable: int, totalReserved: int, totalBalance: int, entryCount: nat)
      ensures totalAvailable + totalReserved == totalBalance == Total(accounts)
      ensures totalReserved == SumBy(accounts, Held)
      ensures entryCount == |entries|
    {
      totalAvailable, totalReserved := 0, 0;
      var rest := accounts;
      while rest.Keys != {}
        invariant totalAvailable + totalReserved + Total(rest) == Total(accounts)
        invariant totalReserved + SumBy(rest, Held) == SumBy(accounts, Held)
        decreases |rest|
      {
        var id :| id in rest.Keys;
        SumBySplit(rest, id, Worth);
        SumBySplit(rest, id, Held);
        totalAvailable := totalAvailable + rest[id].online + rest[id].offline;
        totalReserved := totalReserved + rest[id].reserved;
        rest := rest - {id};
      }
      assert rest == map[];
      entryCount := |entries|;
      totalBalance := totalAvailable + totalReserved;
    }

    /** The source's own invariant check adds one number to both sums: it passes on every journal whatsoever. */
    method CheckGlobalInvariant() returns (passes: bool)
      ensures passes
    {
      var sumDebits, sumCredits := 0, 0;
      for i := 0 to |entries|
        invariant sumDebits == sumCredits
      {
        sumDebits := sumDebits + entries[i].amount;
        sumCredits := sumCredits + entries[i].amount;
      }
      passes := sumDebits == sumCredits;
    }
  }
}
