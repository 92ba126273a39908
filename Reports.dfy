/** The three report handlers: the summary (per-type totals folded into
    income, expenses and balance), the per-(category, type) totals and the
    monthly series. Each aggregation pipeline is a group-and-sum over the
    requester's records; each result is tied to a reference sum over the
    ledger. */
module Reports {
  import opened Common
  import opened Calendar
  import opened Records
  import opened Grouping
  import Sorting

  // ---------------------------------------------------------------- summary

  datatype Summary = Summary(totalIncome: int, totalExpenses: int, balance: int)

  /** Reference: the sum of the amounts of the requester's records of type `kind`. */
  function KindTotal(rs: seq<Transaction>, user: UserId, kind: string): int
  {
    if rs == [] then 0
    else (if rs[0].owner == user && rs[0].kind == Some(kind) then AmountOf(rs[0]) else 0)
         + KindTotal(rs[1..], user, kind)
  }

  /** The (type, amount) pairs the summary's `$group` stage reads. */
  function TypeItems(rs: seq<Transaction>): seq<(Option<string>, int)>
  {
    if rs == [] then [] else [(rs[0].kind, AmountOf(rs[0]))] + TypeItems(rs[1..])
  }

  /** `$match: {user}` then `$group: {_id: "$type", totalAmount: {$sum: "$amount"}}`. */
  function TypeTotals(rs: seq<Transaction>, user: UserId): seq<Group<Option<string>>>
  {
    GroupSum(TypeItems(Owned(rs, user)))
  }

  lemma {:induction false} TypeItemsSum(rs: seq<Transaction>, user: UserId, kind: string)
    ensures SumFor(TypeItems(Owned(rs, user)), Some(kind)) == KindTotal(rs, user, kind)
  {
    if rs != [] {
      TypeItemsSum(rs[1..], user, kind);
    }
  }

  /** The summary pipeline yields one group per type, whose total for a type
      is the reference sum of that type's amounts. */
  lemma TypeTotalsSpec(rs: seq<Transaction>, user: UserId, kind: string)
    ensures UniqueKeys(TypeTotals(rs, user))
    ensures TotalOf(TypeTotals(rs, user), Some(kind)) == KindTotal(rs, user, kind)
  {
    TypeItemsSum(rs, user, kind);
  }

  /** The `forEach` over the summary groups. It assigns a group's total rather
      than adding it, which is right because `$group` yields at most one group
      per type: under unique keys each total is that of the group with that
      key, 0 when there is none; groups of any other type are skipped. */
  method Summarize(groups: seq<Group<Option<string>>>) returns (s: Summary)
    requires UniqueKeys(groups)
    ensures s.totalIncome == TotalOf(groups, Some("income"))
    ensures s.totalExpenses == TotalOf(groups, Some("expense"))
    ensures s.balance == s.totalIncome - s.totalExpenses
  {
    var totalIncome, totalExpenses := 0, 0;
    for i := 0 to |groups|
      invariant totalIncome == TotalOf(groups[..i], Some("income"))
      invariant totalExpenses == TotalOf(groups[..i], Some("expense"))
    {
      TotalOfPrefix(groups, i, Some("income"));
      TotalOfPrefix(groups, i, Some("expense"));
      if groups[i].key == Some("income") {
        totalIncome := groups[i].total;
      } else if groups[i].key == Some("expense") {
        totalExpenses := groups[i].total;
      }
    }
    assert groups[..|groups|] == groups;
    s := Summary(totalIncome, totalExpenses, totalIncome - totalExpenses);
  }

  /** A record of the requester's changes exactly the total of its own type. */
  lemma {:induction false} KindTotalAppend(rs: seq<Transaction>, user: UserId, t: Transaction, kind: string)
    ensures KindTotal(rs + [t], user, kind) ==
            KindTotal(rs, user, kind) + (if t.owner == user && t.kind == Some(kind) then AmountOf(t) else 0)
  {
    if rs == [] {
      assert rs + [t] == [t];
    } else {
      assert (rs + [t])[1..] == rs[1..] + [t];
      KindTotalAppend(rs[1..], user, t, kind);
    }
  }

  // ------------------------------------------------------- category summary

  datatype CategoryTotal = CategoryTotal(category: Option<string>, kind: Option<string>, totalAmount: int)

  /** Reference: the sum of the amounts of the requester's records with this
      category and type. */
  function PairTotal(rs: seq<Transaction>, user: UserId, category: Option<string>, kind: Option<string>): int
  {
    if rs == [] then 0
    else (if rs[0].owner == user && rs[0].category == category && rs[0].kind == kind
          then AmountOf(rs[0]) else 0)
         + PairTotal(rs[1..], user, category, kind)
  }

  function CategoryItems(rs: seq<Transaction>): seq<((Option<string>, Option<string>), int)>
  {
    if rs == [] then [] else [((rs[0].category, rs[0].kind), AmountOf(rs[0]))] + CategoryItems(rs[1..])
  }

  /** `$match: {user}`, `$group: {_id: {category, type}, totalAmount: {$sum}}`,
      then `$project` to {category, type, totalAmount}. */
  function CategorySummary(rs: seq<Transaction>, user: UserId): seq<CategoryTotal>
  {
    var gs := GroupSum(CategoryItems(Owned(rs, user)));
    seq(|gs|, i requires 0 <= i < |gs| => CategoryTotal(gs[i].key.0, gs[i].key.1, gs[i].total))
  }

  lemma {:induction false} CategoryItemsSpec(rs: seq<Transaction>, user: UserId, category: Option<string>, kind: Option<string>)
    ensures SumFor(CategoryItems(Owned(rs, user)), (category, kind)) == PairTotal(rs, user, category, kind)
    ensures ItemKeys(CategoryItems(Owned(rs, user))) ==
            set t | t in rs && t.owner == user :: (t.category, t.kind)
  {
    if rs != [] {
      CategoryItemsSpec(rs[1..], user, category, kind);
      var items := CategoryItems(Owned(rs, user));
      if rs[0].owner == user {
        ItemKeysCons(items);
      }
      assert rs == [rs[0]] + rs[1..];
    }
  }

  /** One entry per (category, type) pair present among the requester's
      records, none for an absent pair, each with the sum of that pair's
      amounts. */
  lemma CategorySummarySpec(rs: seq<Transaction>, user: UserId)
    ensures var r := CategorySummary(rs, user);
      && (forall i, j :: 0 <= i < j < |r| ==> (r[i].category, r[i].kind) != (r[j].category, r[j].kind))
      && (set e | e in r :: (e.category, e.kind)) == (set t | t in rs && t.owner == user :: (t.category, t.kind))
      && (forall e :: e in r ==> e.totalAmount == PairTotal(rs, user, e.category, e.kind))
  {
    var items := CategoryItems(Owned(rs, user));
    var gs := GroupSum(items);
    var r := CategorySummary(rs, user);
    CategoryItemsSpec(rs, user, None, None);
    assert (set e | e in r :: (e.category, e.kind)) == KeySet(gs) by {
      forall p | p in KeySet(gs) ensures p in (set e | e in r :: (e.category, e.kind)) {
        var g :| g in gs && g.key == p;
        var i :| 0 <= i < |gs| && gs[i] == g;
        assert r[i] in r;
      }
    }
    forall e | e in r ensures e.totalAmount == PairTotal(rs, user, e.category, e.kind) {
      var i :| 0 <= i < |r| && r[i] == e;
      GroupTotal(gs, gs[i]);
      CategoryItemsSpec(rs, user, e.category, e.kind);
    }
  }

  // --------------------------------------------------------- monthly series

  /** The `$group` key of the monthly pipeline: `$year` and `$month` of the
      date (null for a record without one) and the type. */
  datatype MonthKey = MonthKey(ym: Option<StoredMonth>, kind: Option<string>)

  function MonthOf(t: Transaction): Option<StoredMonth>
  {
    match t.date
    case Some(d) => Some(MonthOfDate(d))
    case None => None
  }

  function KeyOf(t: Transaction): MonthKey
  {
    MonthKey(MonthOf(t), t.kind)
  }

  /** The month condition of the `$match` stage; a record without a date never
      compares as within a date range. */
  predicate Kept(t: Transaction, filter: Option<YearMonth>)
  {
    filter.None? ||
    (t.date.Some? && InMonthAsWritten(t.date.value, filter.value.year, filter.value.month))
  }

  /** `$match: matchQuery`: the requester's records that pass the month condition. */
  function Selected(rs: seq<Transaction>, user: UserId, filter: Option<YearMonth>): (r: seq<Transaction>)
    ensures forall t :: t in r <==> t in rs && t.owner == user && Kept(t, filter)
  {
    if rs == [] then []
    else if rs[0].owner == user && Kept(rs[0], filter) then [rs[0]] + Selected(rs[1..], user, filter)
    else Selected(rs[1..], user, filter)
  }

  /** Reference: the sum of the amounts of the selected records with this key. */
  function MonthTotal(rs: seq<Transaction>, user: UserId, filter: Option<YearMonth>, key: MonthKey): int
  {
    if rs == [] then 0
    else (if rs[0].owner == user && Kept(rs[0], filter) && KeyOf(rs[0]) == key
          then AmountOf(rs[0]) else 0)
         + MonthTotal(rs[1..], user, filter, key)
  }

  function MonthItems(rs: seq<Transaction>): seq<(MonthKey, int)>
  {
    if rs == [] then [] else [(KeyOf(rs[0]), AmountOf(rs[0]))] + MonthItems(rs[1..])
  }

  /** `$sort: {"_id.year": 1, "_id.month": 1}`; a null year sorts first. */
  predicate ByMonth(a: Group<MonthKey>, b: Group<MonthKey>)
  {
    match a.key.ym
    case None => true
    case Some(x) => b.key.ym.Some? && YearMonthLe(x, b.key.ym.value)
  }

  function GroupKey(g: Group<MonthKey>): MonthKey
  {
    g.key
  }

  /** The `$match`, `$group` and `$sort` stages of the monthly pipeline. */
  function MonthlyGroups(rs: seq<Transaction>, user: UserId, filter: Option<YearMonth>): seq<Group<MonthKey>>
  {
    Sorting.InsertionSort(GroupSum(MonthItems(Selected(rs, user, filter))), ByMonth)
  }

  datatype MonthlyEntry = MonthlyEntry(month: Option<string>, kind: Option<string>, totalAmount: int)

  /** `$dateToString` of `$dateFromParts`: a "YYYY-MM" label, null without a date. */
  function Label(ym: Option<StoredMonth>): Option<string>
  {
    match ym
    case Some(m) => Some(FormatYearMonth(m))
    case None => None
  }

  /** The `month` query covered here: absent or empty (no month condition), or
      two numerals with a month number 1..12. */
  predicate WellFormedMonthQuery(month: Option<string>)
  {
    !Truthy(month) || ParseMonthQuery(month.value).Some?
  }

  /** `if (month)`: the month condition, if any, that the query asks for. */
  function MonthFilter(month: Option<string>): Option<YearMonth>
  {
    if Truthy(month) then ParseMonthQuery(month.value) else None
  }

  /** The monthly pipeline, ending with `$project` to {month, type, totalAmount}. */
  function MonthlySummary(rs: seq<Transaction>, user: UserId, month: Option<string>): seq<MonthlyEntry>
    requires WellFormedMonthQuery(month)
  {
    var gs := MonthlyGroups(rs, user, MonthFilter(month));
    seq(|gs|, i requires 0 <= i < |gs| => MonthlyEntry(Label(gs[i].key.ym), gs[i].key.kind, gs[i].total))
  }

  lemma {:induction false} MonthItemsSpec(rs: seq<Transaction>, user: UserId, filter: Option<YearMonth>, key: MonthKey)
    ensures SumFor(MonthItems(Selected(rs, user, filter)), key) == MonthTotal(rs, user, filter, key)
    ensures ItemKeys(MonthItems(Selected(rs, user, filter))) ==
            set t | t in rs && t.owner == user && Kept(t, filter) :: KeyOf(t)
  {
    if rs != [] {
      MonthItemsSpec(rs[1..], user, filter, key);
      var items := MonthItems(Selected(rs, user, filter));
      if rs[0].owner == user && Kept(rs[0], filter) {
        ItemKeysCons(items);
      }
      assert rs == [rs[0]] + rs[1..];
    }
  }

  lemma ByMonthTotalPreorder()
    ensures Sorting.TotalPreorder(ByMonth)
  {
  }

  /** The groups come sorted by (year, month), one per distinct (year, month,
      type) key of the selected records, each with the sum of its amounts. */
  lemma MonthlyGroupsSpec(rs: seq<Transaction>, user: UserId, filter: Option<YearMonth>)
    ensures var gs := MonthlyGroups(rs, user, filter);
      && Sorting.Sorted(gs, ByMonth)
      && UniqueKeys(gs)
      && KeySet(gs) == (set t | t in rs && t.owner == user && Kept(t, filter) :: KeyOf(t))
      && (forall g :: g in gs ==> g.total == MonthTotal(rs, user, filter, g.key))
  {
    var items := MonthItems(Selected(rs, user, filter));
    var grouped := GroupSum(items);
    var gs := MonthlyGroups(rs, user, filter);
    ByMonthTotalPreorder();
    Sorting.SortIsSorted(grouped, ByMonth);
    assert Sorting.DistinctBy(grouped, GroupKey);
    Sorting.SortKeepsDistinct(grouped, ByMonth, GroupKey);
    assert forall g :: g in gs <==> g in grouped by {
      forall g ensures g in gs <==> g in grouped {
        assert g in gs <==> g in multiset(gs);
        assert g in grouped <==> g in multiset(grouped);
      }
    }
    MonthItemsSpec(rs, user, filter, MonthKey(None, None));
    assert KeySet(gs) == KeySet(grouped);
    forall g | g in gs ensures g.total == MonthTotal(rs, user, filter, g.key) {
      GroupTotal(grouped, g);
      MonthItemsSpec(rs, user, filter, g.key);
    }
  }

  /** With a month filter, every group is of the requested month of the year
      JavaScript reads from the query. */
  lemma MonthlyFilterSpec(rs: seq<Transaction>, user: UserId, year: int, month: int)
    requires 1 <= month <= 12
    ensures forall g :: g in MonthlyGroups(rs, user, Some(YearMonth(year, month))) ==>
      g.key.ym.Some? && g.key.ym.value == YearMonth(JsYear(year), month)
  {
    var filter := Some(YearMonth(year, month));
    MonthlyGroupsSpec(rs, user, filter);
    forall g | g in MonthlyGroups(rs, user, filter)
      ensures g.key.ym.Some? && g.key.ym.value == YearMonth(JsYear(year), month)
    {
      assert g.key in KeySet(MonthlyGroups(rs, user, filter));
      var t :| t in rs && t.owner == user && Kept(t, filter) && KeyOf(t) == g.key;
      InMonthAsWrittenIff(t.date.value, year, month);
    }
  }

  /** Entry i renders group i: its label reads back as the group's month, and
      no two entries share a (month, type) pair. */
  lemma MonthlySummarySpec(rs: seq<Transaction>, user: UserId, month: Option<string>)
    requires WellFormedMonthQuery(month)
    ensures var gs := MonthlyGroups(rs, user, MonthFilter(month));
      var r := MonthlySummary(rs, user, month);
      && |r| == |gs|
      && (forall i :: 0 <= i < |r| ==>
            r[i].kind == gs[i].key.kind && r[i].totalAmount == gs[i].total &&
            (r[i].month.Some? <==> gs[i].key.ym.Some?) &&
            (r[i].month.Some? ==> ParseMonthQuery(r[i].month.value) == Some(gs[i].key.ym.value)))
      && (forall i, j :: 0 <= i < j < |r| ==> (r[i].month, r[i].kind) != (r[j].month, r[j].kind))
  {
    var gs := MonthlyGroups(rs, user, MonthFilter(month));
    var r := MonthlySummary(rs, user, month);
    MonthlyGroupsSpec(rs, user, MonthFilter(month));
    forall i | 0 <= i < |r| && r[i].month.Some?
      ensures ParseMonthQuery(r[i].month.value) == Some(gs[i].key.ym.value)
    {
      ParseFormat(gs[i].key.ym.value);
    }
    forall i, j | 0 <= i < j < |r| ensures (r[i].month, r[i].kind) != (r[j].month, r[j].kind) {
      assert gs[i].key != gs[j].key;
      if gs[i].key.ym.Some? && gs[j].key.ym.Some? {
        FormatInjective(gs[i].key.ym.value, gs[j].key.ym.value);
      }
    }
  }
}
