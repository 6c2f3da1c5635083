/**
 The ledger's answers and movements by the rules of double-entry bookkeeping, with
 the five kinds of account written out.
 */
module AccountingRules {
  import opened Common
  import opened Ledger

  // A debit raises what is owned or spent, a credit what is owed, put in or earned.
  predicate Raises(kind: AccountType, direction: Direction) {
    match kind
    case Asset => direction == Debit
    case Expense => direction == Debit
    case Liability => direction == Credit
    case Equity => direction == Credit
    case Revenue => direction == Credit
  }

  // The balance an entry would leave.
  function Moved(a: Account, e: EntryRequest): int {
    if Raises(a.kind, e.direction) then a.balance + e.amount else a.balance - e.amount
  }

  // What the entries put on one side, first to last.
  function SideSum(entries: seq<EntryRequest>, side: Direction): int {
    if entries == [] then 0
    else (if entries[0].direction == side then entries[0].amount else 0) + SideSum(entries[1..], side)
  }

  lemma {:induction false} SideSumOneMore(entries: seq<EntryRequest>, e: EntryRequest, side: Direction)
    ensures SideSum(entries + [e], side) == SideSum(entries, side) + if e.direction == side then e.amount else 0
  {
    if entries == [] {
      assert entries + [e] == [e];
    } else {
      SideSumOneMore(entries[1..], e, side);
      assert (entries + [e])[1..] == entries[1..] + [e];
    }
  }

  lemma {:induction false} SideSumIsTotal(entries: seq<EntryRequest>, n: nat, side: Direction)
    requires n <= |entries|
    ensures Total(entries, n, side) == SideSum(entries[..n], side)
  {
    if n > 0 {
      SideSumIsTotal(entries, n - 1, side);
      SideSumOneMore(entries[..n - 1], entries[n - 1], side);
      assert entries[..n] == entries[..n - 1] + [entries[n - 1]];
    }
  }

  predicate Balanced(entries: seq<EntryRequest>) { SideSum(entries, Debit) == SideSum(entries, Credit) }

  // The account exists and is not overdrawn against its rule.
  predicate Allowed(accounts: map<string, Account>, e: EntryRequest) {
    e.account in accounts && (accounts[e.account].allowNegative || Moved(accounts[e.account], e) >= 0)
  }

  predicate FirstRefused(accounts: map<string, Account>, entries: seq<EntryRequest>, f: nat) {
    f < |entries| && !Allowed(accounts, entries[f]) && forall j | 0 <= j < f :: Allowed(accounts, entries[j])
  }

  predicate FreshKey(journal: seq<Transaction>, key: string) {
    forall i | 0 <= i < |journal| :: journal[i].key != key
  }

  predicate PairsDiffer(entries: seq<EntryRequest>) {
    forall i, j | 0 <= i < j < |entries| ::
      entries[i].account != entries[j].account || entries[i].direction != entries[j].direction
  }

  lemma BalancedIsBalances(entries: seq<EntryRequest>)
    ensures SideSum(entries, Debit) == Debits(entries) && SideSum(entries, Credit) == Credits(entries)
  {
    SideSumIsTotal(entries, |entries|, Debit);
    SideSumIsTotal(entries, |entries|, Credit);
    assert entries[..|entries|] == entries;
  }

  lemma AllowedIsOk(accounts: map<string, Account>, e: EntryRequest)
    ensures Allowed(accounts, e) <==> EntryOutcome(accounts, e).Ok?
    ensures Allowed(accounts, e) ==> EntryOutcome(accounts, e) == Ok(Moved(accounts[e.account], e))
    ensures !Allowed(accounts, e) ==>
              EntryOutcome(accounts, e) == Err(if e.account !in accounts then AccountNotFound(e.account)
                                               else InsufficientFunds(e.account, Moved(accounts[e.account], e)))
  {}

  lemma RefusesAtFirst(accounts: map<string, Account>, entries: seq<EntryRequest>, f: nat)
    requires Balanced(entries) && FirstRefused(accounts, entries, f)
    ensures Validate(accounts, entries) ==
            Err(if entries[f].account !in accounts then AccountNotFound(entries[f].account)
                else InsufficientFunds(entries[f].account, Moved(accounts[entries[f].account], entries[f])))
  {
    BalancedIsBalances(entries);
    forall i | 0 <= i <= f ensures Allowed(accounts, entries[i]) <==> EntryOutcome(accounts, entries[i]).Ok? {
      AllowedIsOk(accounts, entries[i]);
    }
    AllowedIsOk(accounts, entries[f]);
    hide EntryOutcome, Total, Moved, Allowed, SideSum;
    assert FirstFault(accounts, entries, 0) == f;
  }

  lemma AcceptsIfAllowed(accounts: map<string, Account>, entries: seq<EntryRequest>)
    ensures Validate(accounts, entries).Ok? <==> Balanced(entries) && forall i | 0 <= i < |entries| :: Allowed(accounts, entries[i])
    ensures !Balanced(entries) ==>
              Validate(accounts, entries) == Err(UnbalancedEntries(SideSum(entries, Debit), SideSum(entries, Credit)))
  {
    BalancedIsBalances(entries);
    forall i | 0 <= i < |entries| ensures Allowed(accounts, entries[i]) <==> EntryOutcome(accounts, entries[i]).Ok? {
      AllowedIsOk(accounts, entries[i]);
    }
    hide EntryOutcome, Total, Moved, Allowed, SideSum;
  }

  // The whole verdict on a post, in the order in which it is reached.
  lemma PostAnswersExactly(t: Tables, txn: Transaction)
    ensures var (t', r) := Post(t, txn);
            var (entries, unused) := (txn.entries, FreshKey(t.journal, txn.key));
            var allowed := forall i | 0 <= i < |entries| :: Allowed(t.accounts, entries[i]);
            && (r.Ok? <==> unused && Balanced(entries) && allowed && PairsDiffer(entries))
            && (r == Err(DuplicateTransaction(txn.key)) <==> !unused || (Balanced(entries) && allowed && !PairsDiffer(entries)))
            && (unused && !Balanced(entries) ==> r == Err(UnbalancedEntries(SideSum(entries, Debit), SideSum(entries, Credit))))
            && (forall f: nat | unused && Balanced(entries) && FirstRefused(t.accounts, entries, f) ::
                  r == Err(if entries[f].account !in t.accounts then AccountNotFound(entries[f].account)
                           else InsufficientFunds(entries[f].account, Moved(t.accounts[entries[f].account], entries[f]))))
            && (r.Err? ==> t' == t)
  {
    AcceptsIfAllowed(t.accounts, txn.entries);
    forall f: nat | Balanced(txn.entries) && FirstRefused(t.accounts, txn.entries, f)
      ensures Validate(t.accounts, txn.entries) ==
              Err(if txn.entries[f].account !in t.accounts then AccountNotFound(txn.entries[f].account)
                  else InsufficientFunds(txn.entries[f].account, Moved(t.accounts[txn.entries[f].account], txn.entries[f])))
    {
      RefusesAtFirst(t.accounts, txn.entries, f);
    }
    NoDuplicateFromValidation(t.accounts, txn.entries);
    assert KeyUsed(t.journal, txn.key) <==> !FreshKey(t.journal, txn.key);
    assert RepeatsPair(txn.entries) <==> !PairsDiffer(txn.entries);
    hide Validate, Balanced, Allowed, FirstRefused, KeyUsed, FreshKey, RepeatsPair, PairsDiffer, SideSum, Moved, Written;
  }

  lemma NoDuplicateFromValidation(accounts: map<string, Account>, entries: seq<EntryRequest>)
    ensures Validate(accounts, entries).Err? ==> !Validate(accounts, entries).error.DuplicateTransaction?
  {}

  // No other entry names this entry's account.
  predicate Only(entries: seq<EntryRequest>, i: nat)
    requires i < |entries|
  {
    forall j | 0 <= j < |entries| && j != i :: entries[j].account != entries[i].account
  }

  predicate Unnamed(entries: seq<EntryRequest>, name: string) {
    forall j | 0 <= j < |entries| :: entries[j].account != name
  }

  lemma {:induction false} LastDeltaOfOnly(entries: seq<EntryRequest>, n: nat, kind: AccountType, i: nat)
    requires i < n <= |entries| && Only(entries, i)
    ensures LastDelta(entries, n, kind, entries[i].account) == SignedDelta(kind, entries[i].direction, entries[i].amount)
  {
    if i != n - 1 { LastDeltaOfOnly(entries, n - 1, kind, i); }
  }

  lemma {:induction false} LastDeltaOfNone(entries: seq<EntryRequest>, n: nat, kind: AccountType, name: string)
    requires n <= |entries| && Unnamed(entries, name)
    ensures LastDelta(entries, n, kind, name) == 0
  {
    if n > 0 { LastDeltaOfNone(entries, n - 1, kind, name); }
  }

  // An accepted post moves an account that only entry i names by that entry's
  // amount, up or down by the kind of the account.
  lemma PostMovesByKind(t: Tables, txn: Transaction, i: nat)
    requires Post(t, txn).1.Ok? && i < |txn.entries| && Only(txn.entries, i)
    ensures var (t', e) := (Post(t, txn).0, txn.entries[i]);
            && e.account in t.accounts && e.account in t'.accounts
            && var a := t.accounts[e.account];
               t'.accounts[e.account] ==
               a.(balance := if ((a.kind.Asset? || a.kind.Expense?) && e.direction.Debit?) ||
                                ((a.kind.Liability? || a.kind.Equity? || a.kind.Revenue?) && e.direction.Credit?)
                             then a.balance + e.amount else a.balance - e.amount)
  {
    var name := txn.entries[i].account;
    ValidatedIsAccepted(t.accounts, txn.entries);
    PostMovesCache(t, txn, name);
    LastDeltaOfOnly(txn.entries, |txn.entries|, t.accounts[name].kind, i);
    hide Post, LastDelta, Only;
  }

  // An account that it does not name stays as it was.
  lemma PostSparesOthers(t: Tables, txn: Transaction, name: string)
    requires name in t.accounts && Unnamed(txn.entries, name)
    ensures name in Post(t, txn).0.accounts && Post(t, txn).0.accounts[name] == t.accounts[name]
  {
    if Post(t, txn).1.Ok? {
      PostMovesCache(t, txn, name);
      LastDeltaOfNone(txn.entries, |txn.entries|, t.accounts[name].kind, name);
      hide Post, LastDelta, Unnamed;
    }
  }

  // ---------------------------------------------------------- the accounting equation

  // The balances of the accounts of some kinds.
  ghost function Owned(accounts: map<string, Account>): map<string, int> {
    map name | name in accounts && (accounts[name].kind == Asset || accounts[name].kind == Expense) :: accounts[name].balance
  }

  ghost function Owed(accounts: map<string, Account>): map<string, int> {
    map name | name in accounts &&
               (accounts[name].kind == Liability || accounts[name].kind == Equity || accounts[name].kind == Revenue) ::
      accounts[name].balance
  }

  lemma TakeOutOwned(accounts: map<string, Account>, name: string)
    requires name in accounts && (accounts[name].kind == Asset || accounts[name].kind == Expense)
    ensures Sum(Owned(accounts)) == accounts[name].balance + Sum(Owned(accounts - {name}))
    ensures Owed(accounts) == Owed(accounts - {name})
  {
    assert Owned(accounts) - {name} == Owned(accounts - {name});
    SumRemove(Owned(accounts), name);
  }

  lemma TakeOutOwed(accounts: map<string, Account>, name: string)
    requires name in accounts && (accounts[name].kind == Liability || accounts[name].kind == Equity || accounts[name].kind == Revenue)
    ensures Sum(Owed(accounts)) == accounts[name].balance + Sum(Owed(accounts - {name}))
    ensures Owned(accounts) == Owned(accounts - {name})
  {
    assert Owed(accounts) - {name} == Owed(accounts - {name});
    SumRemove(Owed(accounts), name);
  }

  lemma TakeOutWeight(accounts: map<string, Account>, name: string)
    requires name in accounts
    ensures NetPosition(accounts) == Weight(accounts[name]) + NetPosition(accounts - {name})
  {
    assert Weights(accounts) - {name} == Weights(accounts - {name});
    SumRemove(Weights(accounts), name);
  }

  lemma {:induction false} EquationIsNetPosition(accounts: map<string, Account>)
    ensures Sum(Owned(accounts)) - Sum(Owed(accounts)) == NetPosition(accounts)
    decreases |accounts|
  {
    if accounts == map[] {
      assert Owned(accounts) == map[] && Owed(accounts) == map[] && Weights(accounts) == map[];
    } else {
      hide Sum, Owned, Owed, NetPosition;
      var name :| name in accounts;
      EquationIsNetPosition(accounts - {name});
      TakeOutWeight(accounts, name);
      if accounts[name].kind == Asset || accounts[name].kind == Expense {
        TakeOutOwned(accounts, name);
      } else {
        TakeOutOwed(accounts, name);
      }
    }
  }

  // Assets and expenses less liabilities, equity and revenue keep their opening
  // value over any run of posts that overwrite no amount, refused posts included.
  lemma EquationIsKept(opening: map<string, Account>, txns: seq<Transaction>)
    requires forall txn | txn in txns :: ShadowFree(txn.entries)
    ensures var accounts := PostAll(Tables(opening, []), txns).accounts;
            Sum(Owned(accounts)) - Sum(Owed(accounts)) == Sum(Owned(opening)) - Sum(Owed(opening))
  {
    BooksAfterAnyRun(opening, txns);
    EquationIsNetPosition(opening);
    EquationIsNetPosition(PostAll(Tables(opening, []), txns).accounts);
  }
}
