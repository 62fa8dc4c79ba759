/** The monthly report of `GET /report` (routes/costRoutes.js): the `$match` and `$group`
    stages of the aggregation, the lookup of each category's group, and the `reduce` that
    fills one key per category. */
module Report {
  import opened Outcomes
  import opened Calendar
  import opened Costs

  /** One entry of a category list: `{ sum, description, day }`. */
  datatype Item = Item(sum: real, description: string, day: int)

  /** One document out of the `$group` stage: `_id` is a category, `items` what was pushed. */
  datatype Group = Group(id: string, items: seq<Item>)

  /** The body of `GET /report`. */
  datatype Report = Report(userid: string, year: int, month: int, costs: map<string, seq<Item>>)

  /** The pushed projection of a cost; `day` is the day of month of `created_at`. */
  function ToItem(c: Cost): Item {
    Item(c.sum, c.description, c.createdAt.day)
  }

  /** The `$match` stage: the costs of user `id` created in [lo, hi), in store order. */
  function Matching(costs: seq<Cost>, id: string, lo: Date, hi: Date): (r: seq<Cost>)
    ensures |r| <= |costs|
    ensures forall c :: c in r <==> c in costs && c.userid == id && InRange(c.createdAt, lo, hi)
    ensures forall c :: multiset(r)[c]
                        == if c.userid == id && InRange(c.createdAt, lo, hi) then multiset(costs)[c] else 0
  {
    if costs == [] then []
    else
      var rest := Matching(costs[1..], id, lo, hi);
      assert forall c :: c in costs <==> c == costs[0] || c in costs[1..];
      assert costs == [costs[0]] + costs[1..];
      if costs[0].userid == id && InRange(costs[0].createdAt, lo, hi) then [costs[0]] + rest else rest
  }

  /** The `_id`s of a list of groups. */
  function Ids(groups: seq<Group>): set<string> {
    set g | g in groups :: g.id
  }

  /** No two groups share an `_id`: `$group` emits one document per key. */
  predicate DistinctGroups(groups: seq<Group>) {
    groups == [] || (groups[0].id !in Ids(groups[1..]) && DistinctGroups(groups[1..]))
  }

  lemma IdsCons(groups: seq<Group>)
    requires groups != []
    ensures Ids(groups) == {groups[0].id} + Ids(groups[1..])
  {
  }

  /** `$push` of one cost: appended to the first group of its category, or a new group at
      the end when there is none yet. */
  function Push(groups: seq<Group>, c: Cost): (r: seq<Group>)
    ensures Ids(r) == Ids(groups) + {c.category}
    ensures |r| == if c.category in Ids(groups) then |groups| else |groups| + 1
    ensures DistinctGroups(groups) ==> DistinctGroups(r)
  {
    if groups == [] then
      var r := [Group(c.category, [ToItem(c)])];
      IdsCons(r);
      r
    else
      IdsCons(groups);
      if groups[0].id == c.category then
        var r := [Group(c.category, groups[0].items + [ToItem(c)])] + groups[1..];
        IdsCons(r);
        assert r[1..] == groups[1..];
        r
      else
        var r := [groups[0]] + Push(groups[1..], c);
        IdsCons(r);
        assert r[1..] == Push(groups[1..], c);
        r
  }

  /** The `$group` stage: the costs pushed one by one in arrival order. It yields one group
      per category present, keeping the keys distinct. */
  function GroupAll(groups: seq<Group>, ms: seq<Cost>): (r: seq<Group>)
    ensures Ids(r) == Ids(groups) + set c | c in ms :: c.category
    ensures DistinctGroups(groups) ==> DistinctGroups(r)
    decreases ms
  {
    if ms == [] then groups
    else
      assert (set c | c in ms :: c.category) == {ms[0].category} + set c | c in ms[1..] :: c.category by {
        assert forall c :: c in ms <==> c == ms[0] || c in ms[1..];
      }
      GroupAll(Push(groups, ms[0]), ms[1..])
  }

  /** `Array.prototype.find` on the groups: the first one whose `_id` is `category`. */
  function Find(groups: seq<Group>, category: string): (r: Option<Group>)
    ensures r.Some? ==> r.value in groups && r.value.id == category
    ensures r.None? <==> forall g :: g in groups ==> g.id != category
  {
    if groups == [] then None
    else if groups[0].id == category then Some(groups[0])
    else
      assert forall g :: g in groups <==> g == groups[0] || g in groups[1..];
      Find(groups[1..], category)
  }

  /** `costs.find((c) => c._id === category)?.items || []` (an array is truthy even when empty). */
  function ItemsFor(groups: seq<Group>, category: string): (r: seq<Item>)
    ensures category !in Ids(groups) ==> r == []
    ensures category in Ids(groups) ==> exists g :: g in groups && g.id == category && g.items == r
  {
    match Find(groups, category)
    case Some(g) => g.items
    case None => []
  }

  /** The `reduce` over the category list: every key of `cats` set to its items. */
  function Shape(cats: seq<string>, groups: seq<Group>, acc: map<string, seq<Item>>): (r: map<string, seq<Item>>)
    ensures r.Keys == acc.Keys + set k | k in cats
    ensures forall k :: k in cats ==> r[k] == ItemsFor(groups, k)
    ensures forall k :: k in acc && k !in cats ==> r[k] == acc[k]
  {
    if cats == [] then acc
    else
      assert forall k :: k in cats <==> k == cats[0] || k in cats[1..];
      Shape(cats[1..], groups, acc[cats[0] := ItemsFor(groups, cats[0])])
  }

  /** `GET /report?id=&year=&month=`. The user is not looked up and `month` is not checked. */
  function BuildReport(costs: seq<Cost>, id: string, year: int, month: int): (r: Report)
    ensures r.userid == id && r.year == year && r.month == month
    ensures r.costs.Keys == set k | k in Categories
  {
    var ms := Matching(costs, id, ReportStart(year, month), ReportEnd(year, month));
    Report(id, year, month, Shape(Categories, GroupAll([], ms), map[]))
  }

  /** The costs the report for (id, year, month) draws on. */
  function Qualifying(costs: seq<Cost>, id: string, year: int, month: int): seq<Cost> {
    Matching(costs, id, ReportStart(year, month), ReportEnd(year, month))
  }

  /** Reference definition of a category's list: the items of the costs of that category
      among `ms`, in order. */
  function ItemsOf(ms: seq<Cost>, category: string): (r: seq<Item>)
    ensures |r| <= |ms|
    ensures forall c :: c in ms && c.category == category ==> ToItem(c) in r
    ensures forall x :: x in r ==> exists c :: c in ms && c.category == category && x == ToItem(c)
  {
    if ms == [] then []
    else
      assert forall c :: c in ms <==> c == ms[0] || c in ms[1..];
      (if ms[0].category == category then [ToItem(ms[0])] else []) + ItemsOf(ms[1..], category)
  }

  /** Pushing a cost adds its item to the end of its own category's list and leaves every
      other category's list as it was. */
  lemma {:induction false} PushItems(groups: seq<Group>, c: Cost, category: string)
    ensures ItemsFor(Push(groups, c), category)
            == ItemsFor(groups, category) + (if c.category == category then [ToItem(c)] else [])
  {
    if groups != [] && groups[0].id != c.category {
      PushItems(groups[1..], c, category);
      assert Push(groups, c)[1..] == Push(groups[1..], c);
    }
  }

  /** Grouping a sequence of costs appends, to each category's list, exactly the items of
      that category in arrival order. */
  lemma {:induction false} GroupAllItems(groups: seq<Group>, ms: seq<Cost>, category: string)
    ensures ItemsFor(GroupAll(groups, ms), category) == ItemsFor(groups, category) + ItemsOf(ms, category)
    decreases ms
  {
    if ms != [] {
      PushItems(groups, ms[0], category);
      GroupAllItems(Push(groups, ms[0]), ms[1..], category);
    }
  }

  /** The five category names, as a set. */
  lemma CategoryKeys()
    ensures (set k | k in Categories) == {"food", "health", "housing", "sport", "education"}
  {
  }

  /** The report echoes its query and always has exactly the five category keys, whatever
      the store holds. */
  lemma ReportHasAllCategories(costs: seq<Cost>, id: string, year: int, month: int)
    ensures var r := BuildReport(costs, id, year, month);
      && r.userid == id && r.year == year && r.month == month
      && r.costs.Keys == {"food", "health", "housing", "sport", "education"}
  {
    CategoryKeys();
  }

  /** Under each category the report lists the items of the qualifying costs of that
      category, in store order, and `[]` when there are none. */
  lemma ReportLists(costs: seq<Cost>, id: string, year: int, month: int)
    ensures var r := BuildReport(costs, id, year, month);
      && r.costs.Keys == set k | k in Categories
      && forall k :: k in Categories ==> r.costs[k] == ItemsOf(Qualifying(costs, id, year, month), k)
  {
    var ms := Qualifying(costs, id, year, month);
    forall k | k in Categories
      ensures ItemsFor(GroupAll([], ms), k) == ItemsOf(ms, k)
    {
      GroupAllItems([], ms, k);
    }
  }

  /** Every qualifying cost of a known category shows up, as its item, under its own
      category in the report for the year and month of its date. */
  lemma ReportShowsQualifyingCost(costs: seq<Cost>, id: string, year: int, month: int, c: Cost)
    requires c in costs && c.userid == id && c.category in Categories
    requires ValidDate(c.createdAt) && 1 <= month <= 12
    requires c.createdAt.year == FullYear(year) && c.createdAt.month == month
    ensures var r := BuildReport(costs, id, year, month);
      c.category in r.costs && ToItem(c) in r.costs[c.category]
  {
    InMonthExactly(c.createdAt, year, month);
    ReportLists(costs, id, year, month);
  }

  /** Every item of the report comes from a cost of that user, that category and that range. */
  lemma ReportItemHasSource(costs: seq<Cost>, id: string, year: int, month: int, k: string, x: Item)
    requires k in BuildReport(costs, id, year, month).costs
    requires x in BuildReport(costs, id, year, month).costs[k]
    ensures exists c :: && c in costs && c.userid == id && c.category == k && x == ToItem(c)
                        && InRange(c.createdAt, ReportStart(year, month), ReportEnd(year, month))
  {
    ReportLists(costs, id, year, month);
  }

  /** Costs among `ms` whose category is one of `cats`. */
  function CountIn(ms: seq<Cost>, cats: seq<string>): (n: nat)
    ensures n <= |ms|
  {
    if ms == [] then 0 else (if ms[0].category in cats then 1 else 0) + CountIn(ms[1..], cats)
  }

  /** The total length of the lists of `cats` in a category map. */
  function ListedItems(cats: seq<string>, lists: map<string, seq<Item>>): nat
    requires forall k :: k in cats ==> k in lists
  {
    if cats == [] then 0 else |lists[cats[0]]| + ListedItems(cats[1..], lists)
  }

  predicate Distinct(cats: seq<string>) {
    forall i, j :: 0 <= i < j < |cats| ==> cats[i] != cats[j]
  }

  lemma CategoriesDistinct()
    ensures Distinct(Categories)
  {
  }

  lemma {:induction false} CountInNone(ms: seq<Cost>)
    ensures CountIn(ms, []) == 0
  {
    if ms != [] {
      CountInNone(ms[1..]);
    }
  }

  /** When every cost has one of the categories, all of them are counted. */
  lemma {:induction false} CountInAll(ms: seq<Cost>, cats: seq<string>)
    requires forall c :: c in ms ==> c.category in cats
    ensures CountIn(ms, cats) == |ms|
  {
    if ms != [] {
      assert forall c :: c in ms[1..] ==> c in ms;
      CountInAll(ms[1..], cats);
    }
  }

  /** Counting one more category `k` adds the length of `k`'s list. */
  lemma {:induction false} CountInCons(ms: seq<Cost>, k: string, cats: seq<string>)
    requires k !in cats
    ensures CountIn(ms, [k] + cats) == |ItemsOf(ms, k)| + CountIn(ms, cats)
  {
    if ms != [] {
      CountInCons(ms[1..], k, cats);
    }
  }

  /** With distinct categories, the lists hold as many items as there are costs of those
      categories. */
  lemma {:induction false} ListedItemsCount(cats: seq<string>, ms: seq<Cost>, lists: map<string, seq<Item>>)
    requires Distinct(cats)
    requires forall k :: k in cats ==> k in lists && lists[k] == ItemsOf(ms, k)
    ensures ListedItems(cats, lists) == CountIn(ms, cats)
  {
    if cats == [] {
      CountInNone(ms);
    } else {
      assert cats == [cats[0]] + cats[1..];
      assert forall k :: k in cats[1..] ==> k in cats;
      ListedItemsCount(cats[1..], ms, lists);
      CountInCons(ms, cats[0], cats[1..]);
    }
  }

  /** The report holds exactly one item per qualifying cost whose category is one of the five. */
  lemma ReportItemCount(costs: seq<Cost>, id: string, year: int, month: int)
    ensures var r := BuildReport(costs, id, year, month);
      && (forall k :: k in Categories ==> k in r.costs)
      && ListedItems(Categories, r.costs) == CountIn(Qualifying(costs, id, year, month), Categories)
  {
    ReportLists(costs, id, year, month);
    CategoriesDistinct();
    var r := BuildReport(costs, id, year, month);
    ListedItemsCount(Categories, Qualifying(costs, id, year, month), r.costs);
  }

  lemma {:induction false} MatchingAppend(a: seq<Cost>, b: seq<Cost>, id: string, lo: Date, hi: Date)
    ensures Matching(a + b, id, lo, hi) == Matching(a, id, lo, hi) + Matching(b, id, lo, hi)
  {
    if a != [] {
      assert (a + b)[1..] == a[1..] + b;
      MatchingAppend(a[1..], b, id, lo, hi);
    } else {
      assert a + b == b;
    }
  }

  lemma {:induction false} ItemsOfAppend(a: seq<Cost>, b: seq<Cost>, k: string)
    ensures ItemsOf(a + b, k) == ItemsOf(a, k) + ItemsOf(b, k)
  {
    if a != [] {
      assert (a + b)[1..] == a[1..] + b;
      ItemsOfAppend(a[1..], b, k);
    } else {
      assert a + b == b;
    }
  }

  /** Storing one more cost changes a report only by appending that cost's item to the end
      of its category's list, and only when it belongs to the report's user and range. */
  lemma ReportAfterAppend(costs: seq<Cost>, c: Cost, id: string, year: int, month: int)
    ensures var before := BuildReport(costs, id, year, month);
            var after := BuildReport(costs + [c], id, year, month);
      forall k :: k in Categories ==>
        after.costs[k] == before.costs[k]
          + (if c.userid == id && c.category == k && InRange(c.createdAt, ReportStart(year, month), ReportEnd(year, month))
             then [ToItem(c)] else [])
  {
    var lo, hi := ReportStart(year, month), ReportEnd(year, month);
    var before := BuildReport(costs, id, year, month);
    var after := BuildReport(costs + [c], id, year, month);
    var ms, tail := Matching(costs, id, lo, hi), Matching([c], id, lo, hi);
    ReportLists(costs, id, year, month);
    ReportLists(costs + [c], id, year, month);
    MatchingAppend(costs, [c], id, lo, hi);
    forall k | k in Categories
      ensures after.costs[k] == before.costs[k]
                + (if c.userid == id && c.category == k && InRange(c.createdAt, lo, hi) then [ToItem(c)] else [])
    {
      ItemsOfAppend(ms, tail, k);
      assert ItemsOf(tail, k) == if c.userid == id && c.category == k && InRange(c.createdAt, lo, hi) then [ToItem(c)] else [];
    }
  }
}
