/**
 * The in-memory server (server_real.js): a module-level `users` array and a
 * single `budgets` object shared by every caller, keyed by year.
 */
module MemoryServer {
  import opened Common
  import opened Text

  datatype User = User(id: string, password: string, name: string, email: string, phone: string, nickname: string)

  /** The prefix of the token the login handler returns. */
  const TokenPrefix: string := "dummy-token-for-"

  /** Some user in `users` has the id `id`. */
  predicate IdTaken(users: seq<User>, id: string)
  {
    exists i :: 0 <= i < |users| && users[i].id == id
  }

  class Server {
    /** `users`, grown by `push`. */
    var users: seq<User>
    /** `budgets`: one month map per year for all callers; the keys are JavaScript property names. */
    var budgets: map<string, MonthBudgets>

    /** No two users share an id. */
    ghost predicate Valid()
      reads this
    {
      forall i, j :: 0 <= i < j < |users| ==> users[i].id != users[j].id
    }

    constructor ()
      ensures Valid() && users == [] && budgets == map[]
    {
      users, budgets := [], map[];
    }

    /** `users.find(p)`: the first user satisfying `p`. */
    method Find(p: User -> bool) returns (found: Option<User>)
      ensures found.None? <==> forall i :: 0 <= i < |users| ==> !p(users[i])
      ensures found.Some? ==>
                exists i :: 0 <= i < |users| && users[i] == found.value && p(users[i])
                            && forall j :: 0 <= j < i ==> !p(users[j])
    {
      var i := 0;
      while i < |users|
        invariant 0 <= i <= |users|
        invariant forall j :: 0 <= j < i ==> !p(users[j])
      {
        if p(users[i]) {
          return Some(users[i]);
        }
        i := i + 1;
      }
      return None;
    }

    /** POST /register: refuse a taken id, otherwise append the user. */
    method Register(id: string, password: string, name: string, email: string, phone: string,
                    nickname: Option<string>)
      returns (status: Status)
      requires Valid()
      modifies this`users
      ensures Valid()
      ensures IdTaken(old(users), id) ==> status == Conflict && users == old(users)
      ensures !IdTaken(old(users), id) ==>
                status == Created && users == old(users) + [User(id, password, name, email, phone, OrEmpty(nickname))]
    {
      var existing := Find((u: User) => u.id == id);
      if existing.Some? {
        return Conflict;
      }
      users := users + [User(id, password, name, email, phone, OrEmpty(nickname))];
      status := Created;
    }

    /** POST /login: the first user with this id and password, and a token naming the id. */
    method Login(id: string, password: string) returns (status: Status, session: Option<Session>)
      requires Valid()
      ensures status == Ok <==> exists i :: 0 <= i < |users| && users[i].id == id && users[i].password == password
      ensures status != Ok ==> status == Unauthorized && session == None
      ensures forall i :: 0 <= i < |users| && users[i].id == id && users[i].password == password ==>
                session == Some(Session(TokenPrefix + id, users[i].name, users[i].nickname))
    {
      var user := Find((u: User) => u.id == id && u.password == password);
      if user.None? {
        return Unauthorized, None;
      }
      status := Ok;
      session := Some(Session(TokenPrefix + user.value.id, user.value.name, OrEmpty(Some(user.value.nickname))));
    }

    /** POST /api/budgets: replace the whole entry of the year; 0 is a falsy year. */
    method UpsertBudget(year: int, newBudgets: Option<MonthBudgets>) returns (status: Status)
      modifies this`budgets
      ensures year == 0 || newBudgets.None? ==> status == BadRequest && budgets == old(budgets)
      ensures year != 0 && newBudgets.Some? ==>
                && status == Ok
                && budgets.Keys == old(budgets).Keys + {Decimal(year)}
                && budgets[Decimal(year)] == newBudgets.value
                && (forall k :: k in old(budgets) && k != Decimal(year) ==> budgets[k] == old(budgets)[k])
                && (forall y :: y != year && Decimal(y) in old(budgets) ==> budgets[Decimal(y)] == old(budgets)[Decimal(y)])
    {
      if year == 0 || newBudgets.None? {
        return BadRequest;
      }
      budgets := budgets[Decimal(year) := newBudgets.value];
      forall y | y != year
        ensures Decimal(y) != Decimal(year)
      {
        if Decimal(y) == Decimal(year) { DecimalInjective(y, year); }
      }
      status := Ok;
    }

    /** GET /api/budgets/:year: 404 when the year has no entry or an entry without keys. */
    method LookupBudget(year: string) returns (status: Status, months: MonthBudgets)
      ensures status == Ok <==> year in budgets && budgets[year] != map[]
      ensures status != Ok ==> status == NotFound && months == map[]
      ensures status == Ok ==> months == budgets[year]
    {
      if year !in budgets || |budgets[year]| == 0 {
        return NotFound, map[];
      }
      status, months := Ok, budgets[year];
    }

    /** DELETE /api/budgets/:id: not implemented; answers 501 and changes nothing. */
    method DeleteBudget(id: string) returns (status: Status)
      ensures status == NotImplemented
    {
      status := NotImplemented;
    }
  }
}
