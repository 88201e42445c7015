/** Values shared by both servers: handler outcomes and the login reply. */
module Common {

  datatype Option<+T> = None | Some(value: T)

  /** The outcome a route handler answers with, in place of its HTTP status code. */
  datatype Status =
    | Ok              // 200
    | Created         // 201
    | BadRequest      // 400
    | Unauthorized    // 401
    | Forbidden       // 403
    | NotFound        // 404
    | Conflict        // 409
    | StorageError    // 500
    | NotImplemented  // 501

  /** The body of a successful login: the token and the public part of the user. */
  datatype Session = Session(token: string, name: string, nickname: string)

  /** A year's budgets: month key (as the client sent it) to amount. */
  type MonthBudgets = map<string, int>

  /** `nickname || ''`: an absent nickname is stored as the empty string. */
  function OrEmpty(nickname: Option<string>): (stored: string)
    ensures nickname.Some? ==> stored == nickname.value
    ensures stored == "" <==> nickname.None? || nickname.value == ""
  {
    match nickname
    case Some(n) => n
    case None => ""
  }
}
