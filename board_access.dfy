/** The board-access middleware: the guards a route runs before it touches a board. Each
    guard inspects the request's user and board and the answers of the participation and
    administrator lookups, and reacts by sending status responses and calling `next`. */
module BoardAccess {
  import opened Entities

  const NotLoggedIn := "You must be logged in to access this board"
  const NoBoard := "No valid board has been found but was required"
  const ReadDenied := "You are not allowed to access this board"
  const EditDenied := "You are not allowed to edit content in this board"
  const AdminOnly := "Only an administrator of this board may execute this action"

  /** What the guard sees of the request: whether a user is attached, what was attached as
      the board, and that board's `private` attribute. */
  datatype Request = Request(user: bool, board: Obj, private: Value)

  /** The settled promise of a lookup (`hasUser`, `isAdmin`): its answer, or a rejection. */
  datatype Lookup = Answer(b: bool) | LookupFailed

  /** One reaction of a guard: a JSON error response with its status code, `next()`, or
      `next(err)` with the lookup's rejection. */
  datatype Reply = Status(code: nat, message: string) | Next | NextError

  /** The guard lets the request through: it calls `next()` and does nothing else. */
  predicate Granted(replies: seq<Reply>)
  {
    replies == [Next]
  }

  /** The guard reacts exactly once. */
  predicate Single(replies: seq<Reply>)
  {
    |replies| == 1
  }

  /** `generalCheck`: the response it sends when the user or the board is missing; None
      when both are present and the guard goes on. The user is checked first. */
  function GeneralCheck(req: Request): (g: Option<Reply>)
    ensures g.None? <==> req.user && IsPersisted(req.board, BoardModel)
    ensures !req.user ==> g == Some(Status(401, NotLoggedIn))
    ensures req.user && !IsPersisted(req.board, BoardModel) ==> g == Some(Status(400, NoBoard))
  {
    if !req.user then Some(Status(401, NotLoggedIn))
    else if !IsPersisted(req.board, BoardModel) then Some(Status(400, NoBoard))
    else None
  }

  /** The reactions to the participation lookup when a non-participant is answered with
      `denied`. */
  function Participation(hasUser: Lookup, denied: string): seq<Reply>
  {
    match hasUser
    case Answer(true) => [Next]
    case Answer(false) => [Status(403, denied)]
    case LookupFailed => [NextError]
  }

  /** The public-board shortcut as written: `private && private === false`. */
  predicate PublicShortcut(private: Value)
  {
    !Falsy(private) && private == Bool(false)
  }

  /** `canRead` as written: the general check, the public shortcut (which calls `next()`
      without returning), then the participation lookup. */
  function CanRead(req: Request, hasUser: Lookup): (replies: seq<Reply>)
    ensures replies != []
    ensures Granted(replies) ==> req.user && IsPersisted(req.board, BoardModel) && hasUser == Answer(true)
  {
    if GeneralCheck(req).Some? then [GeneralCheck(req).value]
    else if PublicShortcut(req.private) then [Next] + Participation(hasUser, ReadDenied)
    else Participation(hasUser, ReadDenied)
  }

  /** `canRead` as its documentation describes it and as the socket handler checks it:
      a board whose `private` attribute is `false` is readable by any logged-in user
      without a participation lookup. */
  function CanReadIntended(req: Request, hasUser: Lookup): (replies: seq<Reply>)
    ensures Single(replies)
    ensures Granted(replies) ==>
      req.user && IsPersisted(req.board, BoardModel) && (req.private == Bool(false) || hasUser == Answer(true))
  {
    if GeneralCheck(req).Some? then [GeneralCheck(req).value]
    else if req.private == Bool(false) then [Next]
    else Participation(hasUser, ReadDenied)
  }

  /** `canExecuteUserAction`: the general check, then the participation lookup. */
  function CanExecuteUserAction(req: Request, hasUser: Lookup): (replies: seq<Reply>)
    ensures Single(replies)
    ensures Granted(replies) ==> req.user && IsPersisted(req.board, BoardModel) && hasUser == Answer(true)
  {
    if GeneralCheck(req).Some? then [GeneralCheck(req).value]
    else Participation(hasUser, EditDenied)
  }

  /** `canExecuteAdminAction` as written. The first handler of the chain returns the value
      of `res.status(403).json(...)` for a non-participant (`sent`; Express returns the
      response object), and the second handler tests that value as if it were the
      administrator answer. */
  function CanExecuteAdminAction(req: Request, hasUser: Lookup, isAdmin: Lookup, sent: Value): (replies: seq<Reply>)
    ensures replies != []
    ensures Single(replies) ==> hasUser != Answer(false) || GeneralCheck(req).Some?
  {
    if GeneralCheck(req).Some? then [GeneralCheck(req).value]
    else match hasUser
      case LookupFailed => [NextError]
      case Answer(false) =>
        [Status(403, EditDenied)] + (if Falsy(sent) then [Status(403, AdminOnly)] else [Next])
      case Answer(true) =>
        match isAdmin
        case LookupFailed => [NextError]
        case Answer(false) => [Status(403, AdminOnly)]
        case Answer(true) => [Next]
  }

  /** `canExecuteAdminAction` as intended: a non-participant is refused once and the
      administrator lookup is not made. */
  function CanExecuteAdminActionIntended(req: Request, hasUser: Lookup, isAdmin: Lookup): (replies: seq<Reply>)
    ensures Single(replies)
    ensures Granted(replies) ==>
      req.user && IsPersisted(req.board, BoardModel) && hasUser == Answer(true) && isAdmin == Answer(true)
  {
    if GeneralCheck(req).Some? then [GeneralCheck(req).value]
    else match hasUser
      case LookupFailed => [NextError]
      case Answer(false) => [Status(403, EditDenied)]
      case Answer(true) =>
        match isAdmin
        case LookupFailed => [NextError]
        case Answer(false) => [Status(403, AdminOnly)]
        case Answer(true) => [Next]
  }

  /** Every guard answers a missing user with 401 and nothing else, before it looks at the
      board, and a missing or unsaved board with 400, before any lookup. */
  lemma GuardsCheckUserThenBoard(req: Request, hasUser: Lookup, isAdmin: Lookup, sent: Value)
    ensures !req.user ==>
      && CanRead(req, hasUser) == [Status(401, NotLoggedIn)]
      && CanReadIntended(req, hasUser) == [Status(401, NotLoggedIn)]
      && CanExecuteUserAction(req, hasUser) == [Status(401, NotLoggedIn)]
      && CanExecuteAdminAction(req, hasUser, isAdmin, sent) == [Status(401, NotLoggedIn)]
      && CanExecuteAdminActionIntended(req, hasUser, isAdmin) == [Status(401, NotLoggedIn)]
    ensures req.user && !IsPersisted(req.board, BoardModel) ==>
      && CanRead(req, hasUser) == [Status(400, NoBoard)]
      && CanReadIntended(req, hasUser) == [Status(400, NoBoard)]
      && CanExecuteUserAction(req, hasUser) == [Status(400, NoBoard)]
      && CanExecuteAdminAction(req, hasUser, isAdmin, sent) == [Status(400, NoBoard)]
      && CanExecuteAdminActionIntended(req, hasUser, isAdmin) == [Status(400, NoBoard)]
  {
  }

  /** The public shortcut of `canRead` is never taken: whatever the board's `private`
      attribute holds, the guard is the participation check alone. */
  lemma ShortcutNever(req: Request, hasUser: Lookup)
    ensures !PublicShortcut(req.private)
    ensures CanRead(req, hasUser) ==
      (if GeneralCheck(req).Some? then [GeneralCheck(req).value] else Participation(hasUser, ReadDenied))
  {
    if PublicShortcut(req.private) {
      assert false;
    }
  }

  /** A logged-in user who does not participate in a saved public board is refused by
      `canRead` as written, and let through by the intended guard. */
  lemma PublicBoardRefused()
    ensures var req := Request(true, Instance(BoardModel, 1, false), Bool(false));
      && CanRead(req, Answer(false)) == [Status(403, ReadDenied)]
      && CanReadIntended(req, Answer(false)) == [Next]
  {
    var req := Request(true, Instance(BoardModel, 1, false), Bool(false));
    ShortcutNever(req, Answer(false));
  }

  /** `canRead` as written grants exactly the participants of a valid board, and reacts
      once. */
  lemma CanReadGrantsParticipants(req: Request, hasUser: Lookup)
    ensures Single(CanRead(req, hasUser))
    ensures Granted(CanRead(req, hasUser)) <==>
      req.user && IsPersisted(req.board, BoardModel) && hasUser == Answer(true)
    ensures req.user && IsPersisted(req.board, BoardModel) && hasUser == Answer(false) ==>
      CanRead(req, hasUser) == [Status(403, ReadDenied)]
  {
    ShortcutNever(req, hasUser);
  }

  /** The intended `canRead` reacts once, and grants a logged-in user on a valid board
      exactly when the board is public or the user participates; a public board needs no
      lookup. */
  lemma CanReadIntendedGrants(req: Request, hasUser: Lookup, other: Lookup)
    ensures Single(CanReadIntended(req, hasUser))
    ensures Granted(CanReadIntended(req, hasUser)) <==>
      req.user && IsPersisted(req.board, BoardModel) && (req.private == Bool(false) || hasUser == Answer(true))
    ensures req.private == Bool(false) ==> CanReadIntended(req, hasUser) == CanReadIntended(req, other)
  {
  }

  /** `canExecuteUserAction` reacts once and grants exactly the participants of a valid
      board; a non-participant gets 403 and a failed lookup is passed to `next`. */
  lemma UserActionGrantsParticipants(req: Request, hasUser: Lookup)
    ensures Single(CanExecuteUserAction(req, hasUser))
    ensures Granted(CanExecuteUserAction(req, hasUser)) <==>
      req.user && IsPersisted(req.board, BoardModel) && hasUser == Answer(true)
    ensures req.user && IsPersisted(req.board, BoardModel) && hasUser == Answer(false) ==>
      CanExecuteUserAction(req, hasUser) == [Status(403, EditDenied)]
    ensures req.user && IsPersisted(req.board, BoardModel) && hasUser == LookupFailed ==>
      CanExecuteUserAction(req, hasUser) == [NextError]
  {
  }

  /** `canExecuteAdminAction` as written answers a non-participant twice: the 403 and,
      with Express's truthy return value, a `next()` that runs the route anyway. */
  lemma AdminActionRepliesTwice(req: Request, isAdmin: Lookup)
    requires req.user && IsPersisted(req.board, BoardModel)
    ensures CanExecuteAdminAction(req, Answer(false), isAdmin, Other) == [Status(403, EditDenied), Next]
    ensures !Single(CanExecuteAdminAction(req, Answer(false), isAdmin, Other))
  {
  }

  /** For participants and failed lookups the written and the intended admin guard agree. */
  lemma AdminActionAgreesOnParticipants(req: Request, hasUser: Lookup, isAdmin: Lookup, sent: Value)
    requires hasUser != Answer(false) || GeneralCheck(req).Some?
    ensures CanExecuteAdminAction(req, hasUser, isAdmin, sent) == CanExecuteAdminActionIntended(req, hasUser, isAdmin)
  {
  }

  /** The intended admin guard reacts once and grants exactly the administrators who
      participate in a valid board: 403 'edit content' for non-participants, 403
      'administrator' for participants who are not administrators. */
  lemma AdminActionGrantsAdmins(req: Request, hasUser: Lookup, isAdmin: Lookup, other: Lookup)
    ensures Single(CanExecuteAdminActionIntended(req, hasUser, isAdmin))
    ensures Granted(CanExecuteAdminActionIntended(req, hasUser, isAdmin)) <==>
      req.user && IsPersisted(req.board, BoardModel) && hasUser == Answer(true) && isAdmin == Answer(true)
    ensures req.user && IsPersisted(req.board, BoardModel) && hasUser == Answer(false) ==>
      CanExecuteAdminActionIntended(req, hasUser, isAdmin) == [Status(403, EditDenied)]
      && CanExecuteAdminActionIntended(req, hasUser, other) == [Status(403, EditDenied)]
    ensures req.user && IsPersisted(req.board, BoardModel) && hasUser == Answer(true) && isAdmin == Answer(false) ==>
      CanExecuteAdminActionIntended(req, hasUser, isAdmin) == [Status(403, AdminOnly)]
  {
  }

  /** The guards are ordered by privilege: whoever passes the admin guard passes the user
      guard, and whoever passes the user guard may read. */
  lemma GuardsNested(req: Request, hasUser: Lookup, isAdmin: Lookup)
    ensures Granted(CanExecuteAdminActionIntended(req, hasUser, isAdmin)) ==> Granted(CanExecuteUserAction(req, hasUser))
    ensures Granted(CanExecuteUserAction(req, hasUser)) ==> Granted(CanRead(req, hasUser))
    ensures Granted(CanRead(req, hasUser)) ==> Granted(CanReadIntended(req, hasUser))
  {
    ShortcutNever(req, hasUser);
  }
}
