/**
 * The Mongo-backed server (server.js): the User, Budget and Expense
 * collections as maps keyed by their unique indexes, and the store logic
 * of the route handlers as methods of one `Ledger` object.
 */
module MongoServer {
  import opened Common
  import opened Text
  import opened DateKeys
  import Auth

  /** The user id the middleware attaches to a request (opaque here). */
  type UserId = string
  /** An expense date as the client sent it, normally "YYYY-M-D". */
  type Date = string

  /** A stored user; `objectId` is the `_id` the store assigned on insertion. */
  datatype UserDoc = UserDoc(objectId: string, password: string, name: string, email: string,
                             phone: string, nickname: string)

  /**
   * Whether the store throws: `FailsAt(k)` makes the k-th awaited store
   * call of the handler (counted from 0) throw, if the handler reaches it.
   * Every handler catches it and answers 500.
   */
  datatype Fault = NoFault | FailsAt(site: nat)

  /** `deleteMany({ userId, date: /^prefix/ })` took away exactly those records. */
  ghost predicate ExpensesDeleted(before: map<(UserId, Date), int>, after: map<(UserId, Date), int>,
                                  userId: UserId, prefix: string)
  {
    && (forall k :: k in after <==> k in before && !(k.0 == userId && StartsWith(k.1, prefix)))
    && (forall k :: k in after ==> after[k] == before[k])
  }

  /** `Expense.deleteMany({ userId, date: /^prefix/ })`. */
  function DeleteExpenses(expenses: map<(UserId, Date), int>, userId: UserId, prefix: string)
    : (r: map<(UserId, Date), int>)
    ensures ExpensesDeleted(expenses, r, userId, prefix)
  {
    map k | k in expenses && !(k.0 == userId && StartsWith(k.1, prefix)) :: expenses[k]
  }

  /** `deleteMany({ userId })` on a collection keyed by (userId, something). */
  function DeleteOfUser<K(==, !new), V>(m: map<(UserId, K), V>, userId: UserId): (r: map<(UserId, K), V>)
    ensures forall k :: k in r <==> k in m && k.0 != userId
    ensures forall k :: k in r ==> r[k] == m[k]
  {
    map k | k in m && k.0 != userId :: m[k]
  }

  /** The dates `Expense.find({ userId, date: /^<year>-<month>-/ })` returns. */
  function MonthDates(expenses: map<(UserId, Date), int>, userId: UserId, year: int, month: int)
    : (dates: set<Date>)
    ensures forall d :: d in dates <==> (userId, d) in expenses && StartsWith(d, MonthPrefix(year, month))
  {
    set k | k in expenses && k.0 == userId && StartsWith(k.1, MonthPrefix(year, month)) :: k.1
  }

  /** No other date in `dates` falls on the same day number as `date`. */
  ghost predicate DayIsUnique(dates: set<Date>, date: Date)
  {
    forall d :: d in dates && DayOf(d) == DayOf(date) ==> d == date
  }

  class Ledger {
    /** The User collection, keyed by the unique `id` (server.js:25). */
    var users: map<string, UserDoc>
    /** The Budget collection, unique on (userId, year) (server.js:49). */
    var budgets: map<(UserId, int), MonthBudgets>
    /** The Expense collection, unique on (userId, date) (server.js:64). */
    var expenses: map<(UserId, Date), int>

    constructor ()
      ensures users == map[] && budgets == map[] && expenses == map[]
    {
      users, budgets, expenses := map[], map[], map[];
    }

    /** POST /register. `objectId` is the `_id` the store gives the new document. */
    method Register(id: string, password: string, name: string, email: string, phone: string,
                    nickname: Option<string>, objectId: string, fault: Fault)
      returns (status: Status)
      modifies this`users
      ensures fault == FailsAt(0) ==> status == StorageError && users == old(users)
      ensures fault != FailsAt(0) && id in old(users) ==> status == Conflict && users == old(users)
      ensures fault != FailsAt(0) && id !in old(users) && fault == FailsAt(1) ==>
                status == StorageError && users == old(users)
      ensures fault != FailsAt(0) && id !in old(users) && fault != FailsAt(1) ==>
                && status == Created
                && users == old(users)[id := UserDoc(objectId, password, name, email, phone, OrEmpty(nickname))]
    {
      if fault == FailsAt(0) { return StorageError; }  // User.findOne
      if id in users { return Conflict; }
      if fault == FailsAt(1) { return StorageError; }  // newUser.save
      users := users[id := UserDoc(objectId, password, name, email, phone, OrEmpty(nickname))];
      status := Created;
    }

    /** POST /login: the token embeds the user's `_id`, not the `id` the user logs in with. */
    method Login(id: string, password: string, fault: Fault) returns (status: Status, session: Option<Session>)
      ensures fault == FailsAt(0) ==> status == StorageError && session == None
      ensures fault != FailsAt(0) ==> (status == Ok <==> id in users && users[id].password == password)
      ensures fault != FailsAt(0) && status != Ok ==> status == Unauthorized && session == None
      ensures status == Ok ==>
                && id in users
                && session == Some(Session(Auth.LoginToken(users[id].objectId), users[id].name, users[id].nickname))
      ensures status == Ok ==> Auth.Authenticate(Some(session.value.token)) == Auth.Denied(Forbidden)
      ensures status == Ok ==> Auth.DecodeHeader(Some(session.value.token)) == Auth.Authenticated(users[id].objectId)
    {
      if fault == FailsAt(0) { return StorageError, None; }  // User.findOne
      if id !in users || users[id].password != password {
        return Unauthorized, None;
      }
      var user := users[id];
      status := Ok;
      session := Some(Session(Auth.LoginToken(user.objectId), user.name, OrEmpty(Some(user.nickname))));
      Auth.LoginTokenForbidden(user.objectId);
      Auth.DecodeLoginToken(user.objectId);
    }

    /** POST /api/budgets: replace the whole month map of (userId, year); 0 is a falsy year. */
    method UpsertBudget(userId: UserId, year: int, newBudgets: Option<MonthBudgets>, fault: Fault)
      returns (status: Status)
      modifies this`budgets
      ensures year == 0 || newBudgets.None? ==> status == BadRequest && budgets == old(budgets)
      ensures year != 0 && newBudgets.Some? && fault == FailsAt(0) ==>
                status == StorageError && budgets == old(budgets)
      ensures year != 0 && newBudgets.Some? && fault != FailsAt(0) ==>
                && status == Ok
                && budgets.Keys == old(budgets).Keys + {(userId, year)}
                && budgets[(userId, year)] == newBudgets.value
                && forall k :: k in old(budgets) && k != (userId, year) ==> budgets[k] == old(budgets)[k]
    {
      if year == 0 || newBudgets.None? { return BadRequest; }
      if fault == FailsAt(0) { return StorageError; }  // Budget.findOneAndUpdate
      budgets := budgets[(userId, year) := newBudgets.value];
      status := Ok;
    }

    /** GET /api/budgets/:year: the stored month map, or `{}` when there is no record. */
    method LookupBudget(userId: UserId, year: int, fault: Fault) returns (status: Status, months: MonthBudgets)
      ensures fault == FailsAt(0) ==> status == StorageError && months == map[]
      ensures fault != FailsAt(0) ==> status == Ok
      ensures fault != FailsAt(0) && (userId, year) in budgets ==> months == budgets[(userId, year)]
      ensures fault != FailsAt(0) && (userId, year) !in budgets ==> months == map[]
    {
      if fault == FailsAt(0) { return StorageError, map[]; }  // Budget.findOne
      status := Ok;
      months := if (userId, year) in budgets then budgets[(userId, year)] else map[];
    }

    /**
     * POST /api/expenses: set the amount of (userId, date). An empty date
     * or a missing amount is refused; 0 and negative amounts are accepted.
     */
    method UpsertExpense(userId: UserId, date: Option<Date>, amount: Option<int>, fault: Fault)
      returns (status: Status, stored: Option<int>)
      modifies this`expenses
      ensures date.None? || date.value == "" || amount.None? ==>
                status == BadRequest && stored == None && expenses == old(expenses)
      ensures date.Some? && date.value != "" && amount.Some? && fault == FailsAt(0) ==>
                status == StorageError && stored == None && expenses == old(expenses)
      ensures date.Some? && date.value != "" && amount.Some? && fault != FailsAt(0) ==>
                && status == Ok && stored == amount
                && expenses.Keys == old(expenses).Keys + {(userId, date.value)}
                && expenses[(userId, date.value)] == amount.value
                && forall k :: k in old(expenses) && k != (userId, date.value) ==> expenses[k] == old(expenses)[k]
    {
      if date.None? || date.value == "" || amount.None? { return BadRequest, None; }
      if fault == FailsAt(0) { return StorageError, None; }  // Expense.findOneAndUpdate
      expenses := expenses[(userId, date.value) := amount.value];
      status, stored := Ok, Some(expenses[(userId, date.value)]);
    }

    /**
     * GET /api/expenses/:year/:month: the caller's expenses whose date
     * starts with "<year>-<month>-", keyed by day number. The store returns
     * the documents in no promised order, and two dates can name the same
     * day ("2024-1-5" and "2024-1-05"); then one of them wins.
     */
    method QueryMonth(userId: UserId, year: int, month: int, fault: Fault) returns (status: Status, days: map<nat, int>)
      ensures fault == FailsAt(0) ==> status == StorageError && days == map[]
      ensures fault != FailsAt(0) ==> status == Ok
      ensures forall day :: day in days ==>
                exists d :: d in MonthDates(expenses, userId, year, month) && DayOf(d) == Some(day)
                            && days[day] == expenses[(userId, d)]
      ensures fault != FailsAt(0) ==>
                forall d :: d in MonthDates(expenses, userId, year, month) && DayOf(d).Some? ==> DayOf(d).value in days
      ensures forall d :: d in MonthDates(expenses, userId, year, month) && DayOf(d).Some? && DayIsUnique(MonthDates(expenses, userId, year, month), d) && DayOf(d).value in days ==>
                days[DayOf(d).value] == expenses[(userId, d)]
    {
      if fault == FailsAt(0) { return StorageError, map[]; }  // Expense.find
      var docs := MonthDates(expenses, userId, year, month);
      var todo := docs;
      days := map[];
      while todo != {}
        invariant todo <= docs
        invariant forall day :: day in days ==>
                    exists d :: d in docs && d !in todo && DayOf(d) == Some(day) && days[day] == expenses[(userId, d)]
        invariant forall d :: d in docs && d !in todo && DayOf(d).Some? ==> DayOf(d).value in days
        decreases todo
      {
        var d :| d in todo;
        match DayOf(d) {
          case Some(day) => days := days[day := expenses[(userId, d)]];
          case None =>
        }
        todo := todo - {d};
      }
      status := Ok;
    }

    /**
     * DELETE /api/budgets/:year/:month?, with `month` 0 for "no month".
     * Without a month: delete the (userId, year) budget record, then every
     * expense of the user dated in that year. With a month: set that month
     * to 0 in the budget record if there is one (never creating one), then
     * delete the user's expenses of that month. A store error after the
     * first step leaves the first step applied and is reported as a plain
     * StorageError.
     */
    method ResetScope(userId: UserId, year: int, month: int, fault: Fault) returns (status: Status)
      modifies this`budgets, this`expenses
      ensures month == 0 ==>
                && budgets == (if fault == FailsAt(0) then old(budgets) else old(budgets) - {(userId, year)})
                && (if fault == FailsAt(0) || fault == FailsAt(1)
                    then status == StorageError && expenses == old(expenses)
                    else status == Ok && ExpensesDeleted(old(expenses), expenses, userId, YearPrefix(year)))
      ensures month != 0 ==>
                var found := (userId, year) in old(budgets);
                && budgets.Keys == old(budgets).Keys
                && budgets == (if found && fault != FailsAt(0) && fault != FailsAt(1)
                               then old(budgets)[(userId, year) := old(budgets)[(userId, year)][Decimal(month) := 0]]
                               else old(budgets))
                && (if fault == FailsAt(0) || (found && fault == FailsAt(1)) || fault == FailsAt(2)
                    then status == StorageError && expenses == old(expenses)
                    else status == Ok && ExpensesDeleted(old(expenses), expenses, userId, MonthPrefix(year, month)))
    {
      if month == 0 {
        if fault == FailsAt(0) { return StorageError; }  // Budget.deleteOne
        budgets := budgets - {(userId, year)};
        if fault == FailsAt(1) { return StorageError; }  // Expense.deleteMany
        expenses := DeleteExpenses(expenses, userId, YearPrefix(year));
      } else {
        if fault == FailsAt(0) { return StorageError; }  // Budget.findOne
        if (userId, year) in budgets {
          if fault == FailsAt(1) { return StorageError; }  // budgetDoc.save
          budgets := budgets[(userId, year) := budgets[(userId, year)][Decimal(month) := 0]];
        }
        if fault == FailsAt(2) { return StorageError; }  // Expense.deleteMany
        expenses := DeleteExpenses(expenses, userId, MonthPrefix(year, month));
      }
      status := Ok;
    }

    /** DELETE /api/budgets/all: every budget, then every expense, of the user. */
    method ResetAll(userId: UserId, fault: Fault) returns (status: Status)
      modifies this`budgets, this`expenses
      ensures budgets == (if fault == FailsAt(0) then old(budgets) else DeleteOfUser(old(budgets), userId))
      ensures expenses == (if fault == FailsAt(0) || fault == FailsAt(1) then old(expenses)
                           else DeleteOfUser(old(expenses), userId))
      ensures status == (if fault == FailsAt(0) || fault == FailsAt(1) then StorageError else Ok)
    {
      if fault == FailsAt(0) { return StorageError; }  // Budget.deleteMany
      budgets := DeleteOfUser(budgets, userId);
      if fault == FailsAt(1) { return StorageError; }  // Expense.deleteMany
      expenses := DeleteOfUser(expenses, userId);
      status := Ok;
    }
  }

  /** A month reset keeps the user's expenses of every other month. */
  lemma MonthResetKeepsOtherMonths(before: map<(UserId, Date), int>, after: map<(UserId, Date), int>,
                                   userId: UserId, year: int, month: int, other: int, date: Date)
    requires ExpensesDeleted(before, after, userId, MonthPrefix(year, month))
    requires other != month && StartsWith(date, MonthPrefix(year, other))
    requires (userId, date) in before
    ensures (userId, date) in after && after[(userId, date)] == before[(userId, date)]
  {
    MonthPrefixesDisjoint(date, year, month, other);
  }

  /** A month reset keeps the user's expenses of every other year. */
  lemma MonthResetKeepsOtherYears(before: map<(UserId, Date), int>, after: map<(UserId, Date), int>,
                                  userId: UserId, year: int, month: int, other: int, date: Date)
    requires ExpensesDeleted(before, after, userId, MonthPrefix(year, month))
    requires other != year && StartsWith(date, YearPrefix(other))
    requires (userId, date) in before
    ensures (userId, date) in after && after[(userId, date)] == before[(userId, date)]
  {
    if StartsWith(date, MonthPrefix(year, month)) {
      MonthPrefixWithinYear(date, year, month);
      YearPrefixesDisjoint(date, year, other);
    }
  }

  /** A month reset leaves nothing for a query of that month to find. */
  lemma MonthResetEmptiesMonth(before: map<(UserId, Date), int>, after: map<(UserId, Date), int>,
                               userId: UserId, year: int, month: int)
    requires ExpensesDeleted(before, after, userId, MonthPrefix(year, month))
    ensures MonthDates(after, userId, year, month) == {}
  {
  }

  /** A year reset leaves nothing for a query of any month of that year to find. */
  lemma YearResetEmptiesEveryMonth(before: map<(UserId, Date), int>, after: map<(UserId, Date), int>,
                                   userId: UserId, year: int, month: int)
    requires ExpensesDeleted(before, after, userId, YearPrefix(year))
    ensures MonthDates(after, userId, year, month) == {}
  {
    forall d | (userId, d) in after
      ensures !StartsWith(d, MonthPrefix(year, month))
    {
      if StartsWith(d, MonthPrefix(year, month)) {
        MonthPrefixWithinYear(d, year, month);
      }
    }
  }

  /** A year reset keeps the user's expenses of every other year. */
  lemma YearResetKeepsOtherYears(before: map<(UserId, Date), int>, after: map<(UserId, Date), int>,
                                 userId: UserId, year: int, other: int, date: Date)
    requires ExpensesDeleted(before, after, userId, YearPrefix(year))
    requires other != year && StartsWith(date, YearPrefix(other))
    requires (userId, date) in before
    ensures (userId, date) in after && after[(userId, date)] == before[(userId, date)]
  {
    YearPrefixesDisjoint(date, year, other);
  }

  /** Deleting by prefix never touches another user's expenses. */
  lemma DeleteKeepsOtherUsers(before: map<(UserId, Date), int>, after: map<(UserId, Date), int>,
                              userId: UserId, prefix: string, k: (UserId, Date))
    requires ExpensesDeleted(before, after, userId, prefix)
    requires k in before && k.0 != userId
    ensures k in after && after[k] == before[k]
  {
  }

  /**
   * A client of the ledger: record `amount` on a date of the queried month
   * and another amount on a date outside it (as "2024-1-5" and "2024-11-5"
   * are for January 2024, see `JanuaryFifthSelected` and
   * `NovemberFifthNotSelected`); the month query answers that one day only.
   */
  method MonthQueryExample(userId: UserId, inside: Date, outside: Date, year: int, month: int,
                           day: nat, amount: int, other: int)
    requires StartsWith(inside, MonthPrefix(year, month)) && DayOf(inside) == Some(day)
    requires outside != "" && !StartsWith(outside, MonthPrefix(year, month))
  {
    var ledger := new Ledger();
    var s1, a1 := ledger.UpsertExpense(userId, Some(inside), Some(amount), NoFault);
    var s2, a2 := ledger.UpsertExpense(userId, Some(outside), Some(other), NoFault);
    assert ledger.expenses.Keys == {(userId, inside), (userId, outside)};
    assert ledger.expenses[(userId, inside)] == amount;
    ghost var dates := MonthDates(ledger.expenses, userId, year, month);
    assert dates == {inside} by {
      assert inside in dates;
      forall d | d in dates ensures d == inside {
        assert (userId, d) in ledger.expenses.Keys;
      }
    }
    var status, days := ledger.QueryMonth(userId, year, month, NoFault);
    assert day in days && days[day] == amount;
    forall k | k in days ensures k == day {
      var d :| d in dates && DayOf(d) == Some(k);
    }
    assert status == Ok && days.Keys == {day};
  }
}
