/** Cost records and the validation chain of `POST /add` (routes/costRoutes.js). */
module Costs {
  import opened Outcomes
  import opened Calendar

  /** The closed set of categories, in the order the report lists them. */
  const Categories: seq<string> := ["food", "health", "housing", "sport", "education"]

  const RequiredError := "All fields are required"
  const CategoryError := "Invalid category"
  const SumError := "Sum must be a positive number"

  /** A stored cost document. */
  datatype Cost = Cost(description: string, category: string, userid: string, sum: real, createdAt: Date)

  /** A JSON scalar as it may arrive in a request body (`null` and a missing key are `None`). */
  datatype Json = JNumber(n: real) | JString(s: string) | JBool(b: bool)

  /** The body of `POST /add`. */
  datatype CostRequest = CostRequest(
    description: Option<string>,
    category: Option<string>,
    userid: Option<string>,
    sum: Option<Json>,
    createdAt: Option<Date>)

  /** JavaScript truthiness of an optional string: missing and "" are falsy. */
  predicate Present(s: Option<string>)
    ensures Present(s) <==> s != None && s != Some("")
  {
    s.Some? && s.value != ""
  }

  /** JavaScript truthiness of an optional JSON scalar: missing, 0, "" and false are falsy. */
  predicate PresentJson(v: Option<Json>)
    ensures PresentJson(v) <==> v !in [None, Some(JNumber(0.0)), Some(JString("")), Some(JBool(false))]
    ensures v.Some? && v.value.JNumber? && v.value.n > 0.0 ==> PresentJson(v)
  {
    match v
    case None => false
    case Some(JNumber(n)) => n != 0.0
    case Some(JString(s)) => s != ""
    case Some(JBool(b)) => b
  }

  /** The first guard: description, category, userid and sum are all truthy. */
  predicate HasRequiredFields(req: CostRequest) {
    Present(req.description) && Present(req.category) && Present(req.userid) && PresentJson(req.sum)
  }

  /** `typeof sum === "number" && sum > 0`. */
  predicate IsPositiveNumber(v: Option<Json>) {
    v.Some? && v.value.JNumber? && v.value.n > 0.0
  }

  /** What a cost stored by `POST /add` satisfies. */
  predicate WellFormed(c: Cost) {
    c.description != "" && c.category in Categories && c.userid != "" && c.sum > 0.0
  }

  /** The outcome of `POST /add` for a request, with `now` the clock reading used when the
      request gives no `created_at`. No user store is consulted. */
  function CheckCost(req: CostRequest, now: Date): (r: Response<Cost>)
    ensures r.Created? || r.BadRequest?
    // the checks run in order: required fields, then category, then sum
    ensures !HasRequiredFields(req) ==> r == BadRequest(RequiredError)
    ensures HasRequiredFields(req) && req.category.value !in Categories ==> r == BadRequest(CategoryError)
    ensures HasRequiredFields(req) && req.category.value in Categories && !IsPositiveNumber(req.sum)
            ==> r == BadRequest(SumError)
    ensures r.Created? <==> HasRequiredFields(req) && req.category.value in Categories && IsPositiveNumber(req.sum)
    // the stored record carries the given fields and defaults its date to now
    ensures r.Created? ==> WellFormed(r.value)
    ensures r.Created? ==>
              && r.value.description == req.description.value
              && r.value.category == req.category.value
              && r.value.userid == req.userid.value
              && r.value.sum == req.sum.value.n
              && r.value.createdAt == (if req.createdAt.Some? then req.createdAt.value else now)
  {
    if !HasRequiredFields(req) then BadRequest(RequiredError)
    else if req.category.value !in Categories then BadRequest(CategoryError)
    else match req.sum.value
      case JNumber(n) =>
        if n <= 0.0 then BadRequest(SumError)
        else
          var at := match req.createdAt case Some(d) => d case None => now;
          Created(Cost(req.description.value, req.category.value, req.userid.value, n, at))
      case _ => BadRequest(SumError)
  }

  /** A zero sum is reported as a missing field, not as a non-positive sum. */
  lemma ZeroSumIsMissing(req: CostRequest, now: Date)
    requires req.sum == Some(JNumber(0.0))
    ensures CheckCost(req, now) == BadRequest(RequiredError)
  {
  }
}
