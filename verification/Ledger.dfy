/**
 The double-entry ledger: accounts with cached balances, a journal of committed
 transactions, the validation shared by the dry run and the commit, and the two
 operations themselves. Money is counted in whole cents.
 */
module Ledger {
  import opened Common

  datatype AccountType = Asset | Liability | Equity | Revenue | Expense
  datatype Direction = Debit | Credit
  datatype Account = Account(kind: AccountType, balance: int, allowNegative: bool)
  datatype EntryRequest = EntryRequest(account: string, direction: Direction, amount: int)
  datatype Transaction = Transaction(key: string, description: string, requestedBy: string, entries: seq<EntryRequest>)

  datatype LedgerError =
    | DuplicateTransaction(key: string)
    | UnbalancedEntries(debits: int, credits: int)
    | InsufficientFunds(account: string, resultingBalance: int)
    | AccountNotFound(account: string)

  datatype Result<+T> = Ok(value: T) | Err(error: LedgerError)
  datatype DryRunReport = Valid(resultingBalances: map<string, int>) | Invalid(error: LedgerError)

  // The committed contents of the database. The position of a transaction in
  // the journal is its id.
  datatype Tables = Tables(accounts: map<string, Account>, journal: seq<Transaction>)

  // ---------------------------------------------------------------- validation

  predicate IncreasesOnDebit(kind: AccountType) {
    kind.Asset? || kind.Expense?
  }

  function SignedDelta(kind: AccountType, direction: Direction, amount: int): int {
    var increases := if IncreasesOnDebit(kind) then direction.Debit? else direction.Credit?;
    if increases then amount else -amount
  }

  // What the first n entries put on one side.
  function Total(entries: seq<EntryRequest>, n: nat, side: Direction): int
    requires n <= |entries|
  {
    if n == 0 then 0
    else Total(entries, n - 1, side) + if entries[n - 1].direction == side then entries[n - 1].amount else 0
  }

  function Debits(entries: seq<EntryRequest>): int { Total(entries, |entries|, Debit) }

  function Credits(entries: seq<EntryRequest>): int { Total(entries, |entries|, Credit) }

  predicate Balances(entries: seq<EntryRequest>) { Debits(entries) == Credits(entries) }

  // The verdict on a single entry: every entry is judged against the balance
  // the account had before the transaction.
  function EntryOutcome(accounts: map<string, Account>, e: EntryRequest): Result<int> {
    if e.account !in accounts then Err(AccountNotFound(e.account))
    else
      var account := accounts[e.account];
      var newBalance := account.balance + SignedDelta(account.kind, e.direction, e.amount);
      if newBalance < 0 && !account.allowNegative then Err(InsufficientFunds(e.account, newBalance))
      else Ok(newBalance)
  }

  // The first entry at or after i that validation refuses, or the length.
  function FirstFault(accounts: map<string, Account>, entries: seq<EntryRequest>, i: nat): (f: nat)
    requires i <= |entries|
    ensures i <= f <= |entries|
    ensures forall j | i <= j < f :: EntryOutcome(accounts, entries[j]).Ok?
    ensures f < |entries| ==> EntryOutcome(accounts, entries[f]).Err?
    decreases |entries| - i
  {
    if i == |entries| || EntryOutcome(accounts, entries[i]).Err? then i
    else FirstFault(accounts, entries, i + 1)
  }

  function Validate(accounts: map<string, Account>, entries: seq<EntryRequest>): Result<seq<int>> {
    if !Balances(entries) then Err(UnbalancedEntries(Debits(entries), Credits(entries)))
    else
      var f := FirstFault(accounts, entries, 0);
      if f < |entries| then Err(EntryOutcome(accounts, entries[f]).error)
      else Ok(seq(|entries|, i requires 0 <= i < |entries| => EntryOutcome(accounts, entries[i]).value))
  }

  // Results that validation gave for these entries from these accounts.
  predicate Accepted(accounts: map<string, Account>, entries: seq<EntryRequest>, results: seq<int>) {
    && |results| == |entries|
    && forall i | 0 <= i < |entries| ::
         entries[i].account in accounts && EntryOutcome(accounts, entries[i]) == Ok(results[i])
  }

  lemma ValidatedIsAccepted(accounts: map<string, Account>, entries: seq<EntryRequest>)
    requires Validate(accounts, entries).Ok?
    ensures Accepted(accounts, entries, Validate(accounts, entries).value)
  {
    forall i | 0 <= i < |entries| ensures EntryOutcome(accounts, entries[i]).Ok? {
      assert FirstFault(accounts, entries, 0) == |entries|;
    }
  }

  // ------------------------------------------------------- dry run and commit

  // The accounts once the first n results are written back; a later entry
  // naming the same account overwrites an earlier one.
  function Written(accounts: map<string, Account>, entries: seq<EntryRequest>, results: seq<int>, n: nat): (w: map<string, Account>)
    requires n <= |entries| == |results|
    requires forall i | 0 <= i < |entries| :: entries[i].account in accounts
    ensures w.Keys == accounts.Keys
  {
    if n == 0 then accounts
    else
      var before := Written(accounts, entries, results, n - 1);
      before[entries[n - 1].account := before[entries[n - 1].account].(balance := results[n - 1])]
  }

  // The balances a caller is told about: one per account, the last one winning.
  function Reported(entries: seq<EntryRequest>, results: seq<int>, n: nat): map<string, int>
    requires n <= |entries| == |results|
  {
    if n == 0 then map[] else Reported(entries, results, n - 1)[entries[n - 1].account := results[n - 1]]
  }

  predicate KeyUsed(journal: seq<Transaction>, key: string) {
    exists i | 0 <= i < |journal| :: journal[i].key == key
  }

  // The unique constraint on (transaction, account, direction).
  predicate RepeatsPair(entries: seq<EntryRequest>) {
    exists i, j | 0 <= i < j < |entries| ::
      entries[i].account == entries[j].account && entries[i].direction == entries[j].direction
  }

  function DryRun(t: Tables, entries: seq<EntryRequest>): DryRunReport {
    match Validate(t.accounts, entries)
    case Ok(results) => Valid(Reported(entries, results, |entries|))
    case Err(e) => Invalid(e)
  }

  // A transaction committed with the given results.
  function Committed(t: Tables, txn: Transaction, results: seq<int>): Tables
    requires |txn.entries| == |results|
    requires forall i | 0 <= i < |txn.entries| :: txn.entries[i].account in t.accounts
  {
    Tables(Written(t.accounts, txn.entries, results, |results|), t.journal + [txn])
  }

  // A repeated pair is only noticed by the constraint at commit time, and
  // reported as a duplicate transaction like every constraint failure there.
  function Post(t: Tables, txn: Transaction): (Tables, Result<nat>) {
    if KeyUsed(t.journal, txn.key) then (t, Err(DuplicateTransaction(txn.key)))
    else match Validate(t.accounts, txn.entries)
      case Err(e) => (t, Err(e))
      case Ok(results) =>
        if RepeatsPair(txn.entries) then (t, Err(DuplicateTransaction(txn.key)))
        else (Committed(t, txn, results), Ok(|t.journal|))
  }

  function PostAll(t: Tables, txns: seq<Transaction>): Tables {
    if txns == [] then t
    else Post(PostAll(t, txns[..|txns| - 1]), txns[|txns| - 1]).0
  }

  class LedgerService {
    var accounts: map<string, Account>
    var journal: seq<Transaction>

    ghost function Contents(): Tables
      reads this
    {
      Tables(accounts, journal)
    }

    constructor (opening: map<string, Account>)
      ensures Contents() == Tables(opening, [])
    {
      accounts, journal := opening, [];
    }

    method ValidateAndCompute(entries: seq<EntryRequest>) returns (r: Result<seq<int>>)
      ensures r == Validate(accounts, entries)
    {
      var debits, credits := Debits(entries), Credits(entries);
      if debits != credits {
        return Err(UnbalancedEntries(debits, credits));
      }
      var results: seq<int> := [];
      for i := 0 to |entries|
        invariant |results| == i
        invariant forall j | 0 <= j < i :: EntryOutcome(accounts, entries[j]) == Ok(results[j])
        invariant FirstFault(accounts, entries, 0) == FirstFault(accounts, entries, i)
      {
        var e := entries[i];
        if e.account !in accounts {
          return Err(AccountNotFound(e.account));
        }
        var account := accounts[e.account];
        var newBalance := account.balance + SignedDelta(account.kind, e.direction, e.amount);
        if newBalance < 0 && !account.allowNegative {
          return Err(InsufficientFunds(e.account, newBalance));
        }
        results := results + [newBalance];
      }
      assert FirstFault(accounts, entries, 0) == |entries|;
      assert results == Validate(accounts, entries).value;
      return Ok(results);
    }

    method DryRunEntries(entries: seq<EntryRequest>) returns (report: DryRunReport)
      ensures report == DryRun(Contents(), entries)
    {
      var validated := ValidateAndCompute(entries);
      if validated.Err? {
        return Invalid(validated.error);
      }
      var results := validated.value;
      var reported: map<string, int> := map[];
      for i := 0 to |entries|
        invariant reported == Reported(entries, results, i)
      {
        reported := reported[entries[i].account := results[i]];
      }
      return Valid(reported);
    }

    // Store the balances in entry order, each over what is there.
    method WriteBack(entries: seq<EntryRequest>, results: seq<int>)
      requires |entries| == |results| && forall i | 0 <= i < |entries| :: entries[i].account in accounts
      modifies `accounts
      ensures accounts == Written(old(accounts), entries, results, |results|)
    {
      for i := 0 to |entries|
        invariant accounts == Written(old(accounts), entries, results, i)
      {
        var name := entries[i].account;
        accounts := accounts[name := accounts[name].(balance := results[i])];
      }
    }

    method PostTransaction(txn: Transaction) returns (r: Result<nat>)
      modifies this
      ensures (Contents(), r) == Post(old(Contents()), txn)
    {
      hide Written, Validate, RepeatsPair;
      if exists i | 0 <= i < |journal| :: journal[i].key == txn.key {
        return Err(DuplicateTransaction(txn.key));
      }
      var validated := ValidateAndCompute(txn.entries);
      if validated.Err? {
        return Err(validated.error);
      }
      var results := validated.value;
      ValidatedIsAccepted(accounts, txn.entries);
      if RepeatsPair(txn.entries) {
        return Err(DuplicateTransaction(txn.key));
      }
      WriteBack(txn.entries, results);
      r := Ok(|journal|);
      journal := journal + [txn];
    }
  }

  // -------------------------------------------- cached balances and the journal

  // The signed sum of the first n entries that name the account.
  function EntrySum(entries: seq<EntryRequest>, n: nat, kind: AccountType, name: string): int
    requires n <= |entries|
  {
    if n == 0 then 0
    else EntrySum(entries, n - 1, kind, name) +
         if entries[n - 1].account == name then SignedDelta(kind, entries[n - 1].direction, entries[n - 1].amount) else 0
  }

  function JournalSum(journal: seq<Transaction>, kind: AccountType, name: string): int {
    if journal == [] then 0
    else
      var last := journal[|journal| - 1].entries;
      JournalSum(journal[..|journal| - 1], kind, name) + EntrySum(last, |last|, kind, name)
  }

  // Every cached balance is the opening balance plus the account's journal.
  ghost predicate Cached(opening: map<string, Account>, t: Tables) {
    && t.accounts.Keys == opening.Keys
    && forall name | name in opening ::
         t.accounts[name] == opening[name].(balance := opening[name].balance + JournalSum(t.journal, opening[name].kind, name))
  }

  // No entry is overwritten by a later one for the same account, unless it
  // carried nothing.
  predicate ShadowFree(entries: seq<EntryRequest>) {
    forall i, j | 0 <= i < j < |entries| && entries[i].account == entries[j].account :: entries[i].amount == 0
  }

  // The delta that the written balance of an account actually reflects.
  function LastDelta(entries: seq<EntryRequest>, n: nat, kind: AccountType, name: string): int
    requires n <= |entries|
  {
    if n == 0 then 0
    else if entries[n - 1].account == name then SignedDelta(kind, entries[n - 1].direction, entries[n - 1].amount)
    else LastDelta(entries, n - 1, kind, name)
  }

  lemma {:induction false} WrittenReflectsLast(accounts: map<string, Account>, entries: seq<EntryRequest>, results: seq<int>, n: nat, name: string)
    requires n <= |entries| && Accepted(accounts, entries, results)
    requires name in accounts
    ensures Written(accounts, entries, results, n)[name] ==
            accounts[name].(balance := accounts[name].balance + LastDelta(entries, n, accounts[name].kind, name))
  {
    if n > 0 {
      assert EntryOutcome(accounts, entries[n - 1]) == Ok(results[n - 1]);
      WrittenReflectsLast(accounts, entries, results, n - 1, name);
    }
  }

  lemma {:induction false} ZeroEntriesSumToZero(entries: seq<EntryRequest>, n: nat, kind: AccountType, name: string)
    requires n <= |entries|
    requires forall i | 0 <= i < n && entries[i].account == name :: entries[i].amount == 0
    ensures EntrySum(entries, n, kind, name) == 0
  {
    if n > 0 { ZeroEntriesSumToZero(entries, n - 1, kind, name); }
  }

  lemma {:induction false} ShadowFreeSums(entries: seq<EntryRequest>, n: nat, kind: AccountType, name: string)
    requires n <= |entries|
    requires ShadowFree(entries)
    ensures EntrySum(entries, n, kind, name) == LastDelta(entries, n, kind, name)
  {
    if n > 0 {
      if entries[n - 1].account == name {
        ZeroEntriesSumToZero(entries, n - 1, kind, name);
      } else {
        ShadowFreeSums(entries, n - 1, kind, name);
      }
    }
  }

  // With the pair constraint an account is named at most twice; i and j are then all of its entries.
  lemma {:induction false} TwoEntriesSum(entries: seq<EntryRequest>, n: nat, kind: AccountType, i: nat, j: nat)
    requires n <= |entries|
    requires i < j < |entries| && entries[i].account == entries[j].account
    requires !RepeatsPair(entries)
    ensures var name := entries[i].account;
            EntrySum(entries, n, kind, name) ==
            (if i < n then SignedDelta(kind, entries[i].direction, entries[i].amount) else 0) +
            (if j < n then SignedDelta(kind, entries[j].direction, entries[j].amount) else 0)
    ensures j < n ==> LastDelta(entries, n, kind, entries[i].account) == SignedDelta(kind, entries[j].direction, entries[j].amount)
  {
    if n > 0 {
      TwoEntriesSum(entries, n - 1, kind, i, j);
      var k := n - 1;
      if entries[k].account == entries[i].account && k != i && k != j {
        assert false;
      }
    }
  }

  // Where the written balance of an account ends up, against where its journal ends up.
  lemma PostMovesCache(t: Tables, txn: Transaction, name: string)
    requires Post(t, txn).1.Ok? && name in t.accounts
    ensures var t' := Post(t, txn).0;
            var account, n := t.accounts[name], |txn.entries|;
            && t'.accounts.Keys == t.accounts.Keys
            && t'.accounts[name] == account.(balance := account.balance + LastDelta(txn.entries, n, account.kind, name))
            && JournalSum(t'.journal, account.kind, name) ==
               JournalSum(t.journal, account.kind, name) + EntrySum(txn.entries, n, account.kind, name)
  {
    var results := Validate(t.accounts, txn.entries).value;
    WrittenReflectsLast(t.accounts, txn.entries, results, |txn.entries|, name);
    assert (t.journal + [txn])[..|t.journal|] == t.journal;
  }

  lemma ShadowFreePostKeepsCache(opening: map<string, Account>, t: Tables, txn: Transaction)
    requires Cached(opening, t) && Post(t, txn).1.Ok? && ShadowFree(txn.entries)
    ensures Cached(opening, Post(t, txn).0)
  {
    forall name | name in opening
      ensures var account := opening[name];
              Post(t, txn).0.accounts[name] ==
              account.(balance := account.balance + JournalSum(Post(t, txn).0.journal, account.kind, name))
    {
      PostMovesCache(t, txn, name);
      ShadowFreeSums(txn.entries, |txn.entries|, opening[name].kind, name);
    }
    if name :| name in opening { PostMovesCache(t, txn, name); }
  }

  // A committed transaction keeps the cached balances in step with the journal
  // exactly when no entry with an amount is overwritten.
  lemma PostKeepsCacheIff(opening: map<string, Account>, t: Tables, txn: Transaction)
    requires Cached(opening, t)
    requires Post(t, txn).1.Ok?
    ensures Cached(opening, Post(t, txn).0) <==> ShadowFree(txn.entries)
  {
    var entries, n := txn.entries, |txn.entries|;
    if ShadowFree(entries) {
      ShadowFreePostKeepsCache(opening, t, txn);
    } else {
      var i, j :| 0 <= i < j < n && entries[i].account == entries[j].account && entries[i].amount != 0;
      assert EntryOutcome(t.accounts, entries[i]).Ok?;
      PostMovesCache(t, txn, entries[i].account);
      TwoEntriesSum(entries, n, opening[entries[i].account].kind, i, j);
    }
  }

  // Such a transaction is accepted: one account, debited and credited the same amount.
  lemma OverwrittenAmountIsAccepted()
    ensures var opening := map["a" := Account(Asset, 10, true)];
            var txn := Transaction("k", "", "", [EntryRequest("a", Debit, 5), EntryRequest("a", Credit, 5)]);
            var (t, r) := Post(Tables(opening, []), txn);
            && r.Ok? && !ShadowFree(txn.entries) && Cached(opening, Tables(opening, [])) && !Cached(opening, t)
  {
    var opening := map["a" := Account(Asset, 10, true)];
    var e, f := EntryRequest("a", Debit, 5), EntryRequest("a", Credit, 5);
    var txn := Transaction("k", "", "", [e, f]);
    assert Total([e, f], 0, Debit) == 0 && Total([e, f], 1, Debit) == 5 && Total([e, f], 2, Debit) == 5;
    assert Total([e, f], 0, Credit) == 0 && Total([e, f], 1, Credit) == 0 && Total([e, f], 2, Credit) == 5;
    assert EntryOutcome(opening, e).Ok? && EntryOutcome(opening, f).Ok?;
    assert [e, f][0].account == [e, f][1].account && [e, f][0].amount == 5;
    assert Post(Tables(opening, []), txn).1.Ok?;
    PostKeepsCacheIff(opening, Tables(opening, []), txn);
  }

  // ------------------------------------------------------ whole runs of posts

  // Each account's share of (assets + expenses) - (liabilities + equity + revenue).
  function Weight(a: Account): int {
    if IncreasesOnDebit(a.kind) then a.balance else -a.balance
  }

  ghost function Weights(accounts: map<string, Account>): map<string, int> {
    map name | name in accounts :: Weight(accounts[name])
  }

  ghost function NetPosition(accounts: map<string, Account>): int { Sum(Weights(accounts)) }

  predicate Solvent(accounts: map<string, Account>) {
    forall name | name in accounts :: accounts[name].balance >= 0 || accounts[name].allowNegative
  }

  predicate KeysUnique(journal: seq<Transaction>) {
    forall i, j | 0 <= i < j < |journal| :: journal[i].key != journal[j].key
  }

  predicate JournalBalances(journal: seq<Transaction>) {
    forall i | 0 <= i < |journal| :: Balances(journal[i].entries) && !RepeatsPair(journal[i].entries)
  }

  lemma NetPositionUpdate(accounts: map<string, Account>, name: string, a: Account)
    requires name in accounts
    ensures NetPosition(accounts[name := a]) == NetPosition(accounts) - Weight(accounts[name]) + Weight(a)
  {
    SumUpdate(Weights(accounts), name, Weight(a));
    assert Weights(accounts[name := a]) == Weights(accounts)[name := Weight(a)];
  }

  // An unshadowed entry is applied to the balance it was computed from.
  lemma EntryMovesNetPosition(accounts: map<string, Account>, entries: seq<EntryRequest>, results: seq<int>, i: nat)
    requires i < |entries| && Accepted(accounts, entries, results)
    requires ShadowFree(entries)
    ensures var before := Written(accounts, entries, results, i);
            var e := entries[i];
            NetPosition(before[e.account := before[e.account].(balance := results[i])]) ==
            NetPosition(before) + if e.direction == Debit then e.amount else -e.amount
  {
    var before, e := Written(accounts, entries, results, i), entries[i];
    var kind := accounts[e.account].kind;
    WrittenReflectsLast(accounts, entries, results, i, e.account);
    ShadowFreeSums(entries, i, kind, e.account);
    ZeroEntriesSumToZero(entries, i, kind, e.account);
    assert before[e.account] == accounts[e.account];
    NetPositionUpdate(before, e.account, before[e.account].(balance := results[i]));
  }

  lemma {:induction false} WrittenNetPosition(accounts: map<string, Account>, entries: seq<EntryRequest>, results: seq<int>, n: nat)
    requires n <= |entries| && Accepted(accounts, entries, results)
    requires ShadowFree(entries)
    ensures NetPosition(Written(accounts, entries, results, n)) ==
            NetPosition(accounts) + Total(entries, n, Debit) - Total(entries, n, Credit)
  {
    hide EntryOutcome, NetPosition, ShadowFree;
    if n > 0 {
      WrittenNetPosition(accounts, entries, results, n - 1);
      EntryMovesNetPosition(accounts, entries, results, n - 1);
      var before := Written(accounts, entries, results, n - 1);
      var name := entries[n - 1].account;
      assert Written(accounts, entries, results, n) == before[name := before[name].(balance := results[n - 1])];
    }
  }

  lemma {:induction false} WrittenSolvent(accounts: map<string, Account>, entries: seq<EntryRequest>, results: seq<int>, n: nat)
    requires n <= |entries| && Accepted(accounts, entries, results)
    requires Solvent(accounts)
    ensures Solvent(Written(accounts, entries, results, n))
    ensures forall name | name in accounts :: Written(accounts, entries, results, n)[name].allowNegative == accounts[name].allowNegative
  {
    if n > 0 {
      assert EntryOutcome(accounts, entries[n - 1]) == Ok(results[n - 1]);
      WrittenSolvent(accounts, entries, results, n - 1);
    }
  }

  lemma PostKeepsJournal(t: Tables, txn: Transaction)
    ensures KeysUnique(t.journal) ==> KeysUnique(Post(t, txn).0.journal)
    ensures JournalBalances(t.journal) ==> JournalBalances(Post(t, txn).0.journal)
  {
    hide FirstFault, EntryOutcome, Written, Total, RepeatsPair;
  }

  lemma PostKeepsAccounts(t: Tables, txn: Transaction)
    ensures Solvent(t.accounts) ==> Solvent(Post(t, txn).0.accounts)
    ensures ShadowFree(txn.entries) ==> NetPosition(Post(t, txn).0.accounts) == NetPosition(t.accounts)
  {
    if Post(t, txn).1.Ok? {
      var entries, results := txn.entries, Validate(t.accounts, txn.entries).value;
      ValidatedIsAccepted(t.accounts, entries);
      if Solvent(t.accounts) { WrittenSolvent(t.accounts, entries, results, |entries|); }
      if ShadowFree(entries) { WrittenNetPosition(t.accounts, entries, results, |entries|); }
      hide FirstFault, EntryOutcome, Written, Total, RepeatsPair, NetPosition, KeyUsed;
    }
  }

  // What one call keeps, whether it commits or is refused.
  lemma PostKeepsBooks(opening: map<string, Account>, t: Tables, txn: Transaction)
    ensures Solvent(t.accounts) ==> Solvent(Post(t, txn).0.accounts)
    ensures KeysUnique(t.journal) ==> KeysUnique(Post(t, txn).0.journal)
    ensures JournalBalances(t.journal) ==> JournalBalances(Post(t, txn).0.journal)
    ensures ShadowFree(txn.entries) ==> NetPosition(Post(t, txn).0.accounts) == NetPosition(t.accounts)
    ensures ShadowFree(txn.entries) && Cached(opening, t) ==> Cached(opening, Post(t, txn).0)
  {
    PostKeepsJournal(t, txn);
    PostKeepsAccounts(t, txn);
    if Post(t, txn).1.Ok? {
      if Cached(opening, t) { PostKeepsCacheIff(opening, t, txn); }
    }
    hide Validate, Written, NetPosition, Solvent, KeysUnique, JournalBalances, Cached, ShadowFree, KeyUsed, RepeatsPair;
  }

  // The books after any sequence of calls, refused ones included.
  lemma {:induction false} BooksAfterAnyRun(opening: map<string, Account>, txns: seq<Transaction>)
    ensures var t := PostAll(Tables(opening, []), txns);
            && KeysUnique(t.journal)
            && JournalBalances(t.journal)
            && (Solvent(opening) ==> Solvent(t.accounts))
            && ((forall txn | txn in txns :: ShadowFree(txn.entries)) ==>
                  Cached(opening, t) && NetPosition(t.accounts) == NetPosition(opening))
  {
    if txns != [] {
      var init, last := txns[..|txns| - 1], txns[|txns| - 1];
      BooksAfterAnyRun(opening, init);
      PostKeepsBooks(opening, PostAll(Tables(opening, []), init), last);
      assert forall txn | txn in init :: txn in txns;
    }
  }

  // ------------------------------------------------------- dry run against post

  lemma {:induction false} ReportedIsWritten(accounts: map<string, Account>, entries: seq<EntryRequest>, results: seq<int>, n: nat)
    requires n <= |entries| == |results|
    requires forall i | 0 <= i < |entries| :: entries[i].account in accounts
    ensures Reported(entries, results, n).Keys <= accounts.Keys == Written(accounts, entries, results, n).Keys
    ensures forall name | name in accounts ::
              Written(accounts, entries, results, n)[name] ==
              if name in Reported(entries, results, n) then accounts[name].(balance := Reported(entries, results, n)[name])
              else accounts[name]
  {
    if n > 0 { ReportedIsWritten(accounts, entries, results, n - 1); }
  }

  ghost predicate Agree(report: DryRunReport, r: Result<nat>) {
    if report.Valid? then r.Ok? else r == Err(report.error)
  }

  // The dry run and a post from the same state agree exactly when the key is
  // fresh and, if the entries validate, no (account, direction) pair repeats.
  // Where both succeed, the post leaves the balances the dry run announced.
  lemma DryRunPredictsPost(t: Tables, txn: Transaction)
    ensures var report := DryRun(t, txn.entries);
            Agree(report, Post(t, txn).1) <==>
            !KeyUsed(t.journal, txn.key) && (report.Valid? ==> !RepeatsPair(txn.entries))
    ensures Post(t, txn).1.Ok? ==>
              var report, t' := DryRun(t, txn.entries), Post(t, txn).0;
              && report.Valid?
              && report.resultingBalances.Keys <= t.accounts.Keys == t'.accounts.Keys
              && forall name | name in t.accounts ::
                   t'.accounts[name] == if name in report.resultingBalances
                                        then t.accounts[name].(balance := report.resultingBalances[name])
                                        else t.accounts[name]
  {
    if Post(t, txn).1.Ok? {
      var results := Validate(t.accounts, txn.entries).value;
      assert Accepted(t.accounts, txn.entries, results);
      ReportedIsWritten(t.accounts, txn.entries, results, |txn.entries|);
    }
  }

  // A request that repeats a pair can pass the dry run and be refused by the
  // post, as a duplicate, though its key is new.
  lemma RepeatedPairPassesDryRun()
    ensures var t := Tables(map["a" := Account(Asset, 0, true), "b" := Account(Asset, 0, true)], []);
            var entries := [EntryRequest("a", Debit, 5), EntryRequest("a", Debit, 5), EntryRequest("b", Credit, 10)];
            && DryRun(t, entries).Valid? && !KeyUsed(t.journal, "k")
            && Post(t, Transaction("k", "", "", entries)) == (t, Err(DuplicateTransaction("k")))
  {
    var t := Tables(map["a" := Account(Asset, 0, true), "b" := Account(Asset, 0, true)], []);
    var e, f := EntryRequest("a", Debit, 5), EntryRequest("b", Credit, 10);
    var entries := [e, e, f];
    assert Total(entries, 0, Debit) == 0 && Total(entries, 1, Debit) == 5 && Total(entries, 2, Debit) == 10 && Total(entries, 3, Debit) == 10;
    assert Total(entries, 0, Credit) == 0 && Total(entries, 1, Credit) == 0 && Total(entries, 2, Credit) == 0 && Total(entries, 3, Credit) == 10;
    assert EntryOutcome(t.accounts, e).Ok? && EntryOutcome(t.accounts, f).Ok?;
    assert forall i | 0 <= i < 3 :: EntryOutcome(t.accounts, entries[i]).Ok?;
    assert entries[0].account == entries[1].account && entries[0].direction == entries[1].direction;
  }
}
