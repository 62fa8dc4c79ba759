/** Users and the user routes (routes/user_routes.js): lookup with lifetime total,
    registration, and the fixed team list. */
module Users {
  import opened Outcomes
  import opened Costs

  const NotFoundError := "User not found"
  const DuplicateError := "User already exists"

  /** A stored user document; `id` is the externally supplied identity. */
  datatype User = User(id: string, firstName: string, lastName: string, birthday: string, maritalStatus: string)

  /** The body of `POST /users/add`. */
  datatype UserRequest = UserRequest(
    id: Option<string>,
    firstName: Option<string>,
    lastName: Option<string>,
    birthday: Option<string>,
    maritalStatus: Option<string>)

  /** The body of `GET /users/:id`. */
  datatype Summary = Summary(firstName: string, lastName: string, id: string, total: real)

  /** One entry of `GET /about`. */
  datatype Member = Member(firstName: string, lastName: string, id: string, email: string)

  /** No two stored users share an `id`. */
  predicate DistinctIds(users: seq<User>) {
    forall i, j :: 0 <= i < j < |users| ==> users[i].id != users[j].id
  }

  /** `User.findOne({ id })`: the first stored user with that id. */
  function FindUser(users: seq<User>, id: string): (r: Option<User>)
    ensures r.Some? ==> r.value in users && r.value.id == id
    ensures r.None? <==> forall u :: u in users ==> u.id != id
  {
    if users == [] then None
    else if users[0].id == id then Some(users[0])
    else
      assert forall u :: u in users <==> u == users[0] || u in users[1..];
      FindUser(users[1..], id)
  }

  /** The sum of `sum` over every cost of user `id`, whatever its date. */
  function TotalFor(costs: seq<Cost>, id: string): (t: real)
    ensures (forall c :: c in costs ==> c.userid != id) ==> t == 0.0
    ensures (forall c :: c in costs ==> c.sum >= 0.0) ==> t >= 0.0
    ensures forall c :: c in costs && c.userid == id && c.sum > 0.0 && (forall d :: d in costs ==> d.sum >= 0.0)
                        ==> t >= c.sum
  {
    if costs == [] then 0.0
    else (if costs[0].userid == id then costs[0].sum else 0.0) + TotalFor(costs[1..], id)
  }

  /** Whether some stored cost belongs to user `id`. */
  predicate HasCosts(costs: seq<Cost>, id: string) {
    exists i :: 0 <= i < |costs| && costs[i].userid == id
  }

  /** The documents out of `[{ $match: { userid: id } }, { $group: { _id: null, total: { $sum: "$sum" } } }]`:
      none when no cost matches, else one holding the total. */
  function TotalGroups(costs: seq<Cost>, id: string): (r: seq<real>)
    ensures |r| <= 1
    ensures r == [] <==> forall c :: c in costs ==> c.userid != id
    ensures r != [] ==> r[0] == TotalFor(costs, id)
  {
    if HasCosts(costs, id) then [TotalFor(costs, id)] else []
  }

  /** `totalCosts[0]?.total || 0`. */
  function TotalOrZero(groups: seq<real>): (t: real)
    ensures groups == [] ==> t == 0.0
    ensures groups != [] ==> t == groups[0]
  {
    if |groups| > 0 && groups[0] != 0.0 then groups[0] else 0.0
  }

  /** `GET /users/:id`: 404 for an unknown id, otherwise the user's names and id with the
      lifetime total of their costs. Neither store changes. */
  function UserSummary(users: seq<User>, costs: seq<Cost>, id: string): (r: Response<Summary>)
    ensures r.Ok? || r.NotFound?
    ensures r.NotFound? <==> forall u :: u in users ==> u.id != id
    ensures r.NotFound? ==> r.error == NotFoundError
    ensures r.Ok? ==> r.value.id == id
    ensures r.Ok? ==> exists u :: u in users && u.id == id
                                && r.value.firstName == u.firstName && r.value.lastName == u.lastName
  {
    match FindUser(users, id)
    case None => NotFound(NotFoundError)
    case Some(u) => Ok(Summary(u.firstName, u.lastName, u.id, TotalOrZero(TotalGroups(costs, id))))
  }

  /** A user without costs has total 0. */
  lemma TotalWithoutCosts(costs: seq<Cost>, id: string)
    requires !HasCosts(costs, id)
    ensures TotalFor(costs, id) == 0.0
  {
  }

  /** The summary's total is the sum of `sum` over all of the user's costs, regardless of
      date, and 0 when there are none. */
  lemma SummaryTotal(users: seq<User>, costs: seq<Cost>, id: string)
    requires UserSummary(users, costs, id).Ok?
    ensures UserSummary(users, costs, id).value.total == TotalFor(costs, id)
    ensures !HasCosts(costs, id) ==> UserSummary(users, costs, id).value.total == 0.0
  {
  }

  /** With unique user ids (the `unique` index on `id`), a found summary carries the names of
      the one stored user with that id, whichever stored user is asked about. */
  lemma SummaryOfUniqueUser(users: seq<User>, costs: seq<Cost>, id: string)
    requires DistinctIds(users)
    ensures forall u :: u in users && u.id == id ==>
              UserSummary(users, costs, id) == Ok(Summary(u.firstName, u.lastName, id, TotalFor(costs, id)))
  {
  }

  /** Storing one more cost raises the total of its own user by its sum and no other total. */
  lemma {:induction false} TotalAfterAppend(costs: seq<Cost>, c: Cost, id: string)
    ensures TotalFor(costs + [c], id) == TotalFor(costs, id) + (if c.userid == id then c.sum else 0.0)
  {
    if costs != [] {
      assert (costs + [c])[1..] == costs[1..] + [c];
      TotalAfterAppend(costs[1..], c, id);
    } else {
      assert costs + [c] == [c];
    }
  }

  /** When every stored sum is positive, a total is never negative, and it is positive
      exactly when the user has a cost. */
  lemma TotalSign(costs: seq<Cost>, id: string)
    requires forall c :: c in costs ==> c.sum > 0.0
    ensures TotalFor(costs, id) >= 0.0
    ensures TotalFor(costs, id) > 0.0 <==> HasCosts(costs, id)
  {
  }

  /** The first guard: every field of the request is truthy. */
  predicate HasAllFields(req: UserRequest) {
    Present(req.id) && Present(req.firstName) && Present(req.lastName) && Present(req.birthday)
    && Present(req.maritalStatus)
  }

  /** The outcome of `POST /users/add` against the stored users. */
  function CheckUser(users: seq<User>, req: UserRequest): (r: Response<User>)
    ensures r.Created? || r.BadRequest?
    // missing fields are reported first, then a taken id
    ensures !HasAllFields(req) ==> r == BadRequest(RequiredError)
    ensures HasAllFields(req) && (exists u :: u in users && u.id == req.id.value) ==> r == BadRequest(DuplicateError)
    ensures r.Created? <==> HasAllFields(req) && forall u :: u in users ==> u.id != req.id.value
    // the new user carries the given fields and keeps the ids distinct
    ensures r.Created? ==> r.value == User(req.id.value, req.firstName.value, req.lastName.value,
                                           req.birthday.value, req.maritalStatus.value)
    ensures r.Created? && DistinctIds(users) ==> DistinctIds(users + [r.value])
  {
    if !HasAllFields(req) then BadRequest(RequiredError)
    else if FindUser(users, req.id.value).Some? then BadRequest(DuplicateError)
    else
      var u := User(req.id.value, req.firstName.value, req.lastName.value, req.birthday.value, req.maritalStatus.value);
      assert forall i :: 0 <= i < |users| ==> users[i] in users;
      Created(u)
  }

  /** Once a create has succeeded, the same request again fails as a duplicate. */
  lemma RepeatedCreateFails(users: seq<User>, req: UserRequest)
    requires CheckUser(users, req).Created?
    ensures CheckUser(users + [CheckUser(users, req).value], req) == BadRequest(DuplicateError)
  {
  }

  /** `GET /about`: the fixed list of the two team members. */
  function About(): (team: seq<Member>)
    ensures |team| == 2
    ensures forall m :: m in team ==> m.firstName != "" && m.lastName != "" && m.id != "" && '@' in m.email
    ensures team[0].id != team[1].id && team[0].email != team[1].email
  {
    [ Member("Sharon", "Shimon", "316440601", "psnsharon@gmail.com"),
      Member("Mai", "Ludrik", "314652348", "mailu2276@gmail.com") ]
  }
}
