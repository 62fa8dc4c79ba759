/** The store the routes share, standing in for the `costs` and `users` collections, and
    the two routes that write to it. */
module Service {
  import opened Outcomes
  import opened Calendar
  import opened Costs
  import opened Report
  import opened Users

  class Store {
    var costs: seq<Cost>
    var users: seq<User>

    /** User ids are unique (the `unique` index on `id`) and every cost passed `POST /add`. */
    ghost predicate Valid()
      reads this
    {
      DistinctIds(users) && forall c :: c in costs ==> WellFormed(c)
    }

    constructor ()
      ensures Valid() && costs == [] && users == []
    {
      costs := [];
      users := [];
    }

    /** `POST /add`: the guard chain, then one insert. No user lookup is made; `now` is the
        clock reading that `new Date()` would take. */
    method AddCost(req: CostRequest, now: Date) returns (r: Response<Cost>)
      requires Valid()
      modifies this
      ensures Valid()
      ensures r == CheckCost(req, now)
      ensures costs == if r.Created? then old(costs) + [r.value] else old(costs)
      ensures users == old(users)
    {
      if !Present(req.description) || !Present(req.category) || !Present(req.userid) || !PresentJson(req.sum) {
        return BadRequest(RequiredError);
      }
      if req.category.value !in Categories {
        return BadRequest(CategoryError);
      }
      if !req.sum.value.JNumber? || req.sum.value.n <= 0.0 {
        return BadRequest(SumError);
      }
      var createdAt := if req.createdAt.Some? then req.createdAt.value else now;
      var cost := Cost(req.description.value, req.category.value, req.userid.value, req.sum.value.n, createdAt);
      costs := costs + [cost];
      r := Created(cost);
    }

    /** `POST /users/add`: the field check, the duplicate lookup, then one insert. */
    method CreateUser(req: UserRequest) returns (r: Response<User>)
      requires Valid()
      modifies this
      ensures Valid()
      ensures r == CheckUser(old(users), req)
      ensures users == if r.Created? then old(users) + [r.value] else old(users)
      ensures costs == old(costs)
    {
      if !Present(req.id) || !Present(req.firstName) || !Present(req.lastName) || !Present(req.birthday)
         || !Present(req.maritalStatus) {
        return BadRequest(RequiredError);
      }
      var existing := FindUser(users, req.id.value);
      if existing.Some? {
        return BadRequest(DuplicateError);
      }
      var user := User(req.id.value, req.firstName.value, req.lastName.value, req.birthday.value, req.maritalStatus.value);
      users := users + [user];
      r := Created(user);
    }
  }

  /** A cost accepted by `POST /add` is reported under its category for the year and month of
      its date, after everything that was there before, and in no other month's report. */
  lemma AddedCostReported(costs: seq<Cost>, req: CostRequest, now: Date, year: int, month: int)
    requires CheckCost(req, now).Created?
    requires ValidDate(CheckCost(req, now).value.createdAt) && 1 <= month <= 12
    ensures var c := CheckCost(req, now).value;
            var before := BuildReport(costs, c.userid, year, month);
            var after := BuildReport(costs + [c], c.userid, year, month);
      after.costs[c.category] == before.costs[c.category]
        + (if c.createdAt.year == FullYear(year) && c.createdAt.month == month then [ToItem(c)] else [])
  {
    var c := CheckCost(req, now).value;
    ReportAfterAppend(costs, c, c.userid, year, month);
    InMonthExactly(c.createdAt, year, month);
  }

  /** A cost accepted by `POST /add` raises its user's summary total by its sum, and a user
      that does not exist stays unknown: adding a cost does not create one. */
  lemma AddedCostTotal(users: seq<User>, costs: seq<Cost>, req: CostRequest, now: Date)
    requires CheckCost(req, now).Created?
    ensures var c := CheckCost(req, now).value;
            var after := UserSummary(users, costs + [c], c.userid);
      && (after.NotFound? <==> UserSummary(users, costs, c.userid).NotFound?)
      && (after.Ok? ==> after.value.total == TotalFor(costs, c.userid) + c.sum)
  {
    var c := CheckCost(req, now).value;
    if UserSummary(users, costs + [c], c.userid).Ok? {
      SummaryTotal(users, costs + [c], c.userid);
      TotalAfterAppend(costs, c, c.userid);
    }
  }

  /** Over a valid store every cost has a known category, so the report holds exactly one
      item for each of the user's costs in the month. */
  lemma ReportCountsEveryMatch(s: Store, id: string, year: int, month: int)
    requires s.Valid()
    ensures var r := BuildReport(s.costs, id, year, month);
      && (forall k :: k in Categories ==> k in r.costs)
      && ListedItems(Categories, r.costs) == |Qualifying(s.costs, id, year, month)|
  {
    ReportItemCount(s.costs, id, year, month);
    CountInAll(Qualifying(s.costs, id, year, month), Categories);
  }

  /** Over a valid store a summary names the one user registered under the id asked for. */
  lemma SummaryNamesStoredUser(s: Store, id: string, u: User)
    requires s.Valid() && u in s.users && u.id == id
    ensures UserSummary(s.users, s.costs, id) == Ok(Summary(u.firstName, u.lastName, id, TotalFor(s.costs, id)))
  {
  }
}
