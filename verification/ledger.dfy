/** The transaction collection endpoint: creating a transaction together with the cached
    balance of the bank account it names, and listing a user's transactions. */
module Ledger {
  import opened Wrappers
  import opened Calendar
  import Lists
  import Sorting
  import Decimal
  import Strings

  const Income := "INCOME"

  datatype Account = Account(owner: string, balance: int)

  /** A stored transaction. `txType` is kept as the raw string the client sent. */
  datatype Transaction = Transaction(
    id: string,
    userId: string,
    title: string,
    description: Option<string>,
    amount: int,
    txType: string,
    category: string,
    date: Stamp,
    bankAccountId: Option<string>)

  /** The two tables the endpoint touches. */
  datatype Store = Store(accounts: map<string, Account>, transactions: seq<Transaction>)

  /** The JSON body of a create request, with `amount` already read as a number. */
  datatype CreateBody = CreateBody(
    title: string,
    description: Option<string>,
    amount: int,
    txType: string,
    category: string,
    date: Option<Stamp>,
    bankAccountId: Option<string>)

  datatype CreateResponse = Created(tx: Transaction) | CreateUnauthorized | CreateFailed {
    function Status(): int {
      match this
      case Created(_) => 201
      case CreateUnauthorized => 401
      case CreateFailed => 500
    }
  }

  /** A JavaScript-truthy account id: present and not the empty string. */
  predicate Linked(id: Option<string>) {
    id.Some? && id.value != ""
  }

  /** The signed effect of a transaction on its account: INCOME adds, every other type subtracts. */
  function Delta(txType: string, amount: int): (d: int)
    ensures txType == Income ==> d == amount
    ensures txType != Income ==> d == -amount
  {
    if txType == Income then amount else -amount
  }

  /** POST: `session` is the signed-in user, `now` the clock, `newId` the id the database
      assigns, `fault` any storage error inside the atomic unit. */
  function Create(store: Store, session: Option<string>, body: CreateBody, now: Stamp,
                  newId: string, fault: bool): (r: (CreateResponse, Store))
    // no session: 401, nothing read or written
    ensures session.None? ==> r.0 == CreateUnauthorized && r.1 == store
    // every failure leaves both tables as they were
    ensures !r.0.Created? ==> r.1 == store
    ensures r.0.Status() == 500 <==>
              session.Some? && (fault || (Linked(body.bankAccountId) && body.bankAccountId.value !in store.accounts))
    ensures r.0.Created? ==>
              var tx := r.0.tx;
              && r.1.transactions == store.transactions + [tx]
              && tx.id == newId
              && tx.userId == session.value
              && tx.date == (if body.date.Some? then body.date.value else now)
              && tx.amount == body.amount && tx.txType == body.txType
              && tx.title == body.title && tx.category == body.category
              && tx.description == body.description
              && (tx.bankAccountId.Some? <==> Linked(body.bankAccountId))
              && r.1.accounts.Keys == store.accounts.Keys
              // only the named account moves, by the signed amount
              && (forall id :: id in store.accounts && Some(id) != tx.bankAccountId ==>
                    r.1.accounts[id] == store.accounts[id])
              && (tx.bankAccountId.Some? ==>
                    var id := tx.bankAccountId.value;
                    && id in store.accounts
                    && r.1.accounts[id].owner == store.accounts[id].owner
                    && r.1.accounts[id].balance == store.accounts[id].balance + Delta(body.txType, body.amount))
  {
    if session.None? then (CreateUnauthorized, store)
    else if fault then (CreateFailed, store)
    else if Linked(body.bankAccountId) && body.bankAccountId.value !in store.accounts then
      // the `connect` to a missing account throws, and the whole unit rolls back
      (CreateFailed, store)
    else
      var link := if Linked(body.bankAccountId) then body.bankAccountId else None;
      var tx := Transaction(newId, session.value, body.title, body.description, body.amount,
                            body.txType, body.category, body.date.GetOr(now), link);
      var accounts :=
        if link.Some? && link.value in store.accounts then
          var acct := store.accounts[link.value];
          store.accounts[link.value := acct.(balance := acct.balance + Delta(body.txType, body.amount))]
        else store.accounts;
      (Created(tx), Store(accounts, store.transactions + [tx]))
  }

  /** The sum of the signed amounts of the transactions linked to account `id`. */
  function Contribution(txs: seq<Transaction>, id: string): int {
    Lists.Sum(txs, (t: Transaction) => if t.bankAccountId == Some(id) then Delta(t.txType, t.amount) else 0)
  }

  /** The ledger invariant: every cached balance is its opening balance plus its linked
      transactions' signed amounts, and every link points at an existing account. */
  ghost predicate Consistent(store: Store, opening: map<string, int>) {
    && store.accounts.Keys == opening.Keys
    && (forall id :: id in store.accounts ==>
          store.accounts[id].balance == opening[id] + Contribution(store.transactions, id))
    && (forall i :: 0 <= i < |store.transactions| && store.transactions[i].bankAccountId.Some? ==>
          store.transactions[i].bankAccountId.value in store.accounts)
  }

  lemma ContributionAppend(txs: seq<Transaction>, tx: Transaction, id: string)
    ensures Contribution(txs + [tx], id) ==
            Contribution(txs, id) + (if tx.bankAccountId == Some(id) then Delta(tx.txType, tx.amount) else 0)
  {
    Lists.SumAppend(txs, [tx], (t: Transaction) => if t.bankAccountId == Some(id) then Delta(t.txType, t.amount) else 0);
  }

  /** Every create, successful or not, preserves the ledger invariant. */
  lemma CreatePreservesConsistency(store: Store, opening: map<string, int>, session: Option<string>,
                                   body: CreateBody, now: Stamp, newId: string, fault: bool)
    requires Consistent(store, opening)
    ensures Consistent(Create(store, session, body, now, newId, fault).1, opening)
  {
    var r := Create(store, session, body, now, newId, fault);
    if r.0.Created? {
      var tx := r.0.tx;
      var s' := r.1;
      forall id | id in s'.accounts
        ensures s'.accounts[id].balance == opening[id] + Contribution(s'.transactions, id)
      {
        ContributionAppend(store.transactions, tx, id);
      }
      forall i | 0 <= i < |s'.transactions| && s'.transactions[i].bankAccountId.Some?
        ensures s'.transactions[i].bankAccountId.value in s'.accounts
      {
        if i < |store.transactions| {
          assert s'.transactions[i] == store.transactions[i];
        }
      }
    }
  }

  /** Opening a bank account: the database rejects an id already in use. */
  function OpenAccount(store: Store, id: string, owner: string, balance: int): (r: Result<Store, string>)
    ensures r.Success? <==> id !in store.accounts
    ensures r.Success? ==> r.value.accounts == store.accounts[id := Account(owner, balance)]
                           && r.value.transactions == store.transactions
  {
    if id in store.accounts then Failure("Failed to create bank account")
    else Success(store.(accounts := store.accounts[id := Account(owner, balance)]))
  }

  /** Opening an account with a fresh id preserves the invariant, recording its opening balance. */
  lemma OpenPreservesConsistency(store: Store, opening: map<string, int>, id: string, owner: string, balance: int)
    requires Consistent(store, opening)
    requires OpenAccount(store, id, owner, balance).Success?
    ensures Consistent(OpenAccount(store, id, owner, balance).value, opening[id := balance])
  {
    var s' := OpenAccount(store, id, owner, balance).value;
    assert Contribution(store.transactions, id) == 0 by {
      NoLinksToMissing(store.transactions, id, store.accounts);
    }
  }

  lemma {:induction false} NoLinksToMissing(txs: seq<Transaction>, id: string, accounts: map<string, Account>)
    requires id !in accounts
    requires forall i :: 0 <= i < |txs| && txs[i].bankAccountId.Some? ==> txs[i].bankAccountId.value in accounts
    ensures Contribution(txs, id) == 0
  {
    if |txs| > 0 {
      NoLinksToMissing(txs[1..], id, accounts);
    }
  }

  /** One create request as the client issues it. */
  datatype Request = Request(session: Option<string>, body: CreateBody, now: Stamp, newId: string, fault: bool)

  function CreateAll(store: Store, reqs: seq<Request>): Store
    decreases |reqs|
  {
    if |reqs| == 0 then store
    else
      var q := reqs[0];
      CreateAll(Create(store, q.session, q.body, q.now, q.newId, q.fault).1, reqs[1..])
  }

  /** After any sequence of creates, each balance is its opening balance plus the signed sum
      of the account's linked transactions. */
  lemma {:induction false} CreateAllConsistent(store: Store, opening: map<string, int>, reqs: seq<Request>)
    requires Consistent(store, opening)
    ensures Consistent(CreateAll(store, reqs), opening)
    decreases |reqs|
  {
    if |reqs| > 0 {
      var q := reqs[0];
      CreatePreservesConsistency(store, opening, q.session, q.body, q.now, q.newId, q.fault);
      CreateAllConsistent(Create(store, q.session, q.body, q.now, q.newId, q.fault).1, opening, reqs[1..]);
    }
  }

  /** The search parameters of a listing request, as texts; `None` stands for an absent one. */
  datatype Query = Query(month: Option<string>, year: Option<string>, bankAccountId: Option<string>)

  /** `month && year`: the date filter applies when both are present and non-empty. */
  predicate DateFiltered(q: Query) {
    q.month.Some? && q.year.Some? && q.month.value != "" && q.year.value != ""
  }

  /** A date filter whose month or year `parseInt` (no radix) reads as NaN: the window bounds
      are Invalid Dates, which the database query rejects. */
  predicate BadWindow(q: Query) {
    DateFiltered(q) && (Decimal.ParseIntAuto(q.month.value).None? || Decimal.ParseIntAuto(q.year.value).None?)
  }

  datatype ListResponse = Listed(txs: seq<Transaction>) | ListUnauthorized | ListFailed {
    function Status(): int {
      match this
      case Listed(_) => 200
      case ListUnauthorized => 401
      case ListFailed => 500
    }
  }

  /** The `where` clause of the listing. */
  predicate Matches(t: Transaction, user: string, q: Query) {
    && t.userId == user
    && (Linked(q.bankAccountId) ==> t.bankAccountId == q.bankAccountId)
    && (DateFiltered(q) ==>
          var month := Decimal.ParseIntAuto(q.month.value);
          var year := Decimal.ParseIntAuto(q.year.value);
          month.Some? && year.Some? && InMonthWindow(t.date, year.value, month.value))
  }

  /** `orderBy: { date: 'desc' }`. */
  predicate NewerFirst(a: Transaction, b: Transaction) {
    Le(b.date, a.date)
  }

  /** GET: the session user's matching transactions, newest first. */
  function List(store: Store, session: Option<string>, q: Query, fault: bool): (r: ListResponse)
    ensures session.None? <==> r == ListUnauthorized
    ensures r.Status() == 500 <==> session.Some? && (fault || BadWindow(q))
    ensures r.Listed? ==>
              && multiset(r.txs) == multiset(Lists.Keep(store.transactions, t => Matches(t, session.value, q)))
              && Sorting.Sorted(r.txs, NewerFirst)
              && (forall i :: 0 <= i < |r.txs| ==> r.txs[i].userId == session.value)
  {
    if session.None? then ListUnauthorized
    else if fault || BadWindow(q) then ListFailed
    else
      var kept := Lists.Keep(store.transactions, t => Matches(t, session.value, q));
      NewerFirstTotalOrder();
      Sorting.SortSorted(kept, NewerFirst);
      var sorted := Sorting.Sort(kept, NewerFirst);
      assert forall i :: 0 <= i < |sorted| ==> sorted[i] in multiset(kept);
      Listed(sorted)
  }

  lemma NewerFirstTotalOrder()
    ensures Sorting.Total(NewerFirst) && Sorting.Transitive(NewerFirst)
  {
    forall a, b, c | NewerFirst(a, b) && NewerFirst(b, c)
      ensures NewerFirst(a, c)
    {
      LeTransitive(c.date, b.date, a.date);
    }
  }

  /** A listing contains exactly the user's transactions that pass the filters, each once per
      stored occurrence. */
  lemma ListMembership(store: Store, user: string, q: Query, t: Transaction)
    ensures var r := List(store, Some(user), q, false);
            !BadWindow(q) ==> r.Listed? && (t in r.txs <==> t in store.transactions && Matches(t, user, q))
  {
    if !BadWindow(q) {
      var kept := Lists.Keep(store.transactions, x => Matches(x, user, q));
      var r := List(store, Some(user), q, false);
      assert t in r.txs <==> t in multiset(r.txs);
      assert t in kept <==> t in multiset(kept);
      if t in store.transactions && Matches(t, user, q) {
        var i :| 0 <= i < |store.transactions| && store.transactions[i] == t;
      }
    }
  }

  /** A query whose month and year are the decimal texts of two integers filters on exactly
      that calendar window. */
  lemma NumericQueryWindow(t: Transaction, user: string, month: int, year: int, account: Option<string>)
    ensures var q := Query(Some(Decimal.IntToString(month)), Some(Decimal.IntToString(year)), account);
            && !BadWindow(q)
            && (Matches(t, user, q) <==>
                  t.userId == user && (Linked(account) ==> t.bankAccountId == account)
                  && InMonthWindow(t.date, year, month))
  {
    var q := Query(Some(Decimal.IntToString(month)), Some(Decimal.IntToString(year)), account);
    Decimal.ParseIntAutoToString(month);
    Decimal.ParseIntAutoToString(year);
    assert DateFiltered(q);
    assert Decimal.ParseIntAuto(q.month.value) == Some(month);
    assert Decimal.ParseIntAuto(q.year.value) == Some(year);
  }

  /** Two non-empty month texts that `parseInt` reads alike give the same filter and the same
      failure. */
  lemma MonthTextsAgree(t: Transaction, user: string, a: string, b: string, year: string,
                        account: Option<string>)
    requires a != "" && b != "" && Decimal.ParseIntAuto(a) == Decimal.ParseIntAuto(b)
    ensures BadWindow(Query(Some(a), Some(year), account)) <==> BadWindow(Query(Some(b), Some(year), account))
    ensures Matches(t, user, Query(Some(a), Some(year), account))
        <==> Matches(t, user, Query(Some(b), Some(year), account))
  {
    var qa := Query(Some(a), Some(year), account);
    var qb := Query(Some(b), Some(year), account);
    assert DateFiltered(qa) <==> DateFiltered(qb);
  }

  /** `parseInt` reads only the leading digits, so a month of "1abc" filters on January. */
  lemma TrailingTextIgnored(t: Transaction, user: string, year: string, account: Option<string>)
    ensures Matches(t, user, Query(Some("1abc"), Some(year), account))
        <==> Matches(t, user, Query(Some("1"), Some(year), account))
  {
    LeadingOne();
    MonthTextsAgree(t, user, "1abc", "1", year, account);
  }

  /** Without a radix, `parseInt` reads a "0x" month in base 16: "0x1" filters on January. */
  lemma HexMonthRead(t: Transaction, user: string, year: string, account: Option<string>)
    ensures Matches(t, user, Query(Some("0x1"), Some(year), account))
        <==> Matches(t, user, Query(Some("1"), Some(year), account))
  {
    HexOne();
    MonthTextsAgree(t, user, "0x1", "1", year, account);
  }

  /** `parseInt` of "0x1" and of "1" is 1. */
  lemma HexOne()
    ensures Decimal.ParseIntAuto("0x1") == Decimal.ParseIntAuto("1")
  {
    LeadingOne();
    Decimal.HexPrefixOne();
  }

  /** A month of "0x" has no hex digit: `parseInt` gives NaN and the listing fails. */
  lemma HexMonthFails(store: Store, user: string, year: string, account: Option<string>)
    ensures year != "" ==> List(store, Some(user), Query(Some("0x"), Some(year), account), false) == ListFailed
  {
    Decimal.HexPrefixAloneIsNaN();
    var q := Query(Some("0x"), Some(year), account);
    if year != "" {
      assert DateFiltered(q);
      assert BadWindow(q);
    }
  }

  /** `parseInt` of "1abc" and of "1" is 1. */
  lemma LeadingOne()
    ensures Decimal.ParseIntAuto("1abc") == Decimal.ParseIntAuto("1") == Some(1)
  {
    assert "1" + "abc" == "1abc";
    assert "1" + "" == "1";
    Decimal.ParseIntDigitsThen("1", "abc");
    Decimal.ParseIntDigitsThen("1", "");
    Strings.TrimStartUnchanged("1abc");
    Strings.TrimStartUnchanged("1");
    assert Decimal.Unsigned("1abc") == "1abc";
    assert Decimal.Unsigned("1") == "1";
  }
}
