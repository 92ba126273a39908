/** The CRUD handlers of the transaction controller: list (owner filter and
    sort), add, and get / update / delete by id, which succeed only for the
    record's owner and otherwise answer "Transaction not found" without
    telling a missing record from someone else's. */
module Ledger {
  import opened Common
  import opened Calendar
  import opened Records
  import Sorting
  import Reports

  const NotFound := ApiError(404, "Transaction not found")
  const Removed := "Transaction removed"

  // ------------------------------------------------------------------ list

  /** Lexicographic order of strings, as the store compares them. */
  predicate StrLe(a: string, b: string)
  {
    if a == [] then true
    else if b == [] then false
    else if a[0] != b[0] then a[0] < b[0]
    else StrLe(a[1..], b[1..])
  }

  lemma {:induction false} StrLeTotal(a: string, b: string)
    ensures StrLe(a, b) || StrLe(b, a)
  {
    if a != [] && b != [] && a[0] == b[0] {
      StrLeTotal(a[1..], b[1..]);
    }
  }

  lemma {:induction false} StrLeTransitive(a: string, b: string, c: string)
    requires StrLe(a, b) && StrLe(b, c)
    ensures StrLe(a, c)
  {
    if a != [] && b != [] && c != [] && a[0] == b[0] && b[0] == c[0] {
      StrLeTransitive(a[1..], b[1..], c[1..]);
    }
  }

  /** A missing field sorts before every present value. */
  predicate OptStrLe(a: Option<string>, b: Option<string>)
  {
    a.None? || (b.Some? && StrLe(a.value, b.value))
  }

  predicate OptIntLe(a: Option<int>, b: Option<int>)
  {
    a.None? || (b.Some? && a.value <= b.value)
  }

  predicate OptDateLe(a: Option<StoredDate>, b: Option<StoredDate>)
  {
    a.None? || (b.Some? && NotAfter(a.value, b.value))
  }

  /** Ascending order of two records on the field named `field`. A field the
      records do not carry is missing from all of them, so all compare equal. */
  predicate FieldLe(field: string, a: Transaction, b: Transaction)
  {
    if field == "_id" then a.id <= b.id
    else if field == "user" then a.owner <= b.owner
    else if field == "type" then OptStrLe(a.kind, b.kind)
    else if field == "category" then OptStrLe(a.category, b.category)
    else if field == "description" then OptStrLe(a.description, b.description)
    else if field == "amount" then OptIntLe(a.amount, b.amount)
    else if field == "date" then OptDateLe(a.date, b.date)
    else true
  }

  lemma FieldLeTotal(field: string, a: Transaction, b: Transaction)
    ensures FieldLe(field, a, b) || FieldLe(field, b, a)
  {
    if a.kind.Some? && b.kind.Some? { StrLeTotal(a.kind.value, b.kind.value); }
    if a.category.Some? && b.category.Some? { StrLeTotal(a.category.value, b.category.value); }
    if a.description.Some? && b.description.Some? { StrLeTotal(a.description.value, b.description.value); }
  }

  lemma FieldLeTransitive(field: string, a: Transaction, b: Transaction, c: Transaction)
    requires FieldLe(field, a, b) && FieldLe(field, b, c)
    ensures FieldLe(field, a, c)
  {
    if field == "type" && a.kind.Some? && b.kind.Some? && c.kind.Some? {
      StrLeTransitive(a.kind.value, b.kind.value, c.kind.value);
    } else if field == "category" && a.category.Some? && b.category.Some? && c.category.Some? {
      StrLeTransitive(a.category.value, b.category.value, c.category.value);
    } else if field == "description" && a.description.Some? && b.description.Some? && c.description.Some? {
      StrLeTransitive(a.description.value, b.description.value, c.description.value);
    }
  }

  /** `{[sortBy]: order === "asc" ? 1 : -1}` as a comparison of records. */
  function Comparator(field: string, ascending: bool): (Transaction, Transaction) -> bool
  {
    (a: Transaction, b: Transaction) => if ascending then FieldLe(field, a, b) else FieldLe(field, b, a)
  }

  lemma ComparatorTotalPreorder(field: string, ascending: bool)
    ensures Sorting.TotalPreorder(Comparator(field, ascending))
  {
    forall a: Transaction, b: Transaction ensures FieldLe(field, a, b) || FieldLe(field, b, a) {
      FieldLeTotal(field, a, b);
    }
    forall a: Transaction, b: Transaction, c: Transaction | FieldLe(field, a, b) && FieldLe(field, b, c)
      ensures FieldLe(field, a, c)
    {
      FieldLeTransitive(field, a, b, c);
    }
  }

  /** `sortBy` defaults to "date" only when the query leaves it out; an empty
      `?sortBy=` is kept as the empty path. */
  function SortField(sortBy: Option<string>): string
  {
    if sortBy.Some? then sortBy.value else "date"
  }

  /** Only `order === "asc"` sorts ascending; any other value, or none, descending. */
  predicate Ascending(order: Option<string>)
  {
    order == Some("asc")
  }

  /** A field name the store accepts in a sort path. */
  predicate ValidName(name: string)
  {
    name != "" && name[0] != '$'
  }

  /** A sort path the store accepts: the `$natural` key (stored order), or a
      path whose '.'-separated field names are each non-empty and do not start
      with '$'. A well-formed path that names no field of the records is
      accepted and orders nothing. */
  predicate ValidSortPath(path: string)
  {
    path == "$natural" || forall name :: name in Split(path, '.') ==> ValidName(name)
  }

  /** The store's refusal of a sort on an invalid path, passed on as the
      handler's error. */
  const SortRejected := ApiError(500, "invalid sort path")

  /** `find({user: requester}).sort(sortOptions)`: exactly the requester's
      records, each as often as stored, in the order the query asks for; an
      invalid sort path is an error rather than a list. */
  function ListFor(rs: seq<Transaction>, requester: UserId, sortBy: Option<string>, order: Option<string>)
    : (r: Result<seq<Transaction>>)
    ensures r.Err? <==> !ValidSortPath(SortField(sortBy))
    ensures r.Err? ==> r.error == SortRejected
    ensures r.Ok? ==> multiset(r.value) == multiset(Owned(rs, requester))
    ensures r.Ok? ==> forall t :: t in r.value <==> t in rs && t.owner == requester
    ensures r.Ok? ==> Sorting.Sorted(r.value, Comparator(SortField(sortBy), Ascending(order)))
  {
    if !ValidSortPath(SortField(sortBy)) then Err(SortRejected)
    else
      var le := Comparator(SortField(sortBy), Ascending(order));
      ComparatorTotalPreorder(SortField(sortBy), Ascending(order));
      Sorting.SortIsSorted(Owned(rs, requester), le);
      var r := Sorting.InsertionSort(Owned(rs, requester), le);
      assert forall t :: t in r <==> t in multiset(r);
      assert forall t :: t in Owned(rs, requester) <==> t in multiset(Owned(rs, requester));
      Ok(r)
  }

  /** A path without a dot is a single field name. */
  lemma SingleName(name: string)
    requires '.' !in name
    ensures ValidSortPath(name) <==> name == "$natural" || ValidName(name)
  {
    assert Join([name], '.') == name;
    SplitJoin([name], '.');
    assert name in Split(name, '.');
  }

  /** Which sort paths the store accepts: the default "date", `$natural` and
      any plain field name, but neither the empty path nor another
      `$`-prefixed name. */
  lemma AcceptedPaths(field: string)
    requires ValidName(field) && '.' !in field && field != "natural"
    ensures ValidSortPath("date") && ValidSortPath("$natural") && ValidSortPath(field)
    ensures !ValidSortPath("") && !ValidSortPath("$" + field)
  {
    SingleName(field);
    SingleName("date");
    SingleName("");
    SingleName("$" + field);
    assert "$" + field != "$natural" by {
      if |field| == 7 {
        assert ("$" + field)[1..] == field;
      }
    }
  }

  /** The default sort, `$natural` and any plain field name list the records;
      the empty path of `?sortBy=` and any other `$`-prefixed one are refused. */
  lemma SortPaths(rs: seq<Transaction>, requester: UserId, field: string, order: Option<string>)
    requires ValidName(field) && '.' !in field && field != "natural"
    ensures ListFor(rs, requester, None, order).Ok?
    ensures ListFor(rs, requester, Some("$natural"), order).Ok?
    ensures ListFor(rs, requester, Some(field), order).Ok?
    ensures ListFor(rs, requester, Some(""), order).Err?
    ensures ListFor(rs, requester, Some("$" + field), order).Err?
  {
    AcceptedPaths(field);
  }

  /** The requester owns a stored record with this id. */
  predicate OwnsRecord(rs: seq<Transaction>, requester: UserId, id: TransactionId)
  {
    exists t :: t in rs && t.id == id && t.owner == requester
  }

  // ----------------------------------------------------------------- store

  /** The transactions collection. Ids are issued by the store and are never
      reused; `nextId` stands for the store's id generator. */
  class TransactionStore {
    var records: seq<Transaction>
    var nextId: nat

    ghost predicate Valid()
      reads this
    {
      (forall i :: 0 <= i < |records| ==> records[i].id < nextId) &&
      (forall i, j :: 0 <= i < j < |records| ==> records[i].id != records[j].id)
    }

    constructor ()
      ensures Valid() && records == []
    {
      records := [];
      nextId := 0;
    }

    /** `findById`: the position of the record with this id, if any. */
    method Find(id: TransactionId) returns (index: Option<nat>)
      requires Valid()
      ensures index.Some? ==> index.value < |records| && records[index.value].id == id
      ensures index.None? ==> forall t :: t in records ==> t.id != id
    {
      var i := 0;
      while i < |records|
        invariant 0 <= i <= |records|
        invariant forall k :: 0 <= k < i ==> records[k].id != id
      {
        if records[i].id == id {
          return Some(i);
        }
        i := i + 1;
      }
      return None;
    }

    /** POST: a new record owned by the requester, with the body's five fields
        as given; the reply is 201 with the created record. */
    method Add(requester: UserId, body: Body) returns (status: int, created: Transaction)
      requires Valid()
      modifies this
      ensures Valid()
      ensures status == 201
      ensures created.owner == requester && BodyOf(created) == body
      ensures forall t :: t in old(records) ==> t.id != created.id
      ensures records == old(records) + [created]
      ensures forall kind :: Reports.KindTotal(records, requester, kind) ==
                Reports.KindTotal(old(records), requester, kind) +
                (if created.kind == Some(kind) then AmountOf(created) else 0)
    {
      ghost var before := records;
      created := Transaction(nextId, requester, body.kind, body.category, body.amount,
                             body.description, body.date);
      records := records + [created];
      nextId := nextId + 1;
      status := 201;
      forall kind: string
        ensures Reports.KindTotal(records, requester, kind) ==
                Reports.KindTotal(before, requester, kind) +
                (if created.kind == Some(kind) then AmountOf(created) else 0)
      {
        Reports.KindTotalAppend(before, requester, created, kind);
      }
    }

    /** GET by id: the record only when the requester owns it. */
    method GetById(requester: UserId, id: TransactionId) returns (r: Result<Transaction>)
      requires Valid()
      ensures r.Ok? <==> OwnsRecord(records, requester, id)
      ensures r.Ok? ==> r.value in records && r.value.id == id && r.value.owner == requester
      ensures r.Err? ==> r.error == NotFound
    {
      var index := Find(id);
      if index.Some? && records[index.value].owner == requester {
        r := Ok(records[index.value]);
      } else {
        r := Err(NotFound);
      }
    }

    /** PUT by id: for the owner, the five fields are replaced by the body's
        (omitted ones become undefined) and nothing else changes; for anyone
        else, or a missing id, "Transaction not found" and no change. */
    method Update(requester: UserId, id: TransactionId, body: Body) returns (r: Result<Transaction>)
      requires Valid()
      modifies this
      ensures Valid() && nextId == old(nextId)
      ensures r.Ok? <==> OwnsRecord(old(records), requester, id)
      ensures r.Err? ==> r.error == NotFound && records == old(records)
      ensures r.Ok? ==> exists i :: 0 <= i < |old(records)| && old(records)[i].id == id &&
                          r.value == Overwrite(old(records)[i], body) &&
                          records == old(records)[i := r.value]
    {
      var index := Find(id);
      if index.Some? && records[index.value].owner == requester {
        var updated := Overwrite(records[index.value], body);
        records := records[index.value := updated];
        r := Ok(updated);
      } else {
        r := Err(NotFound);
      }
    }

    /** DELETE by id: for the owner, exactly that record goes and the reply is
        "Transaction removed"; otherwise "Transaction not found" and no change. */
    method Delete(requester: UserId, id: TransactionId) returns (r: Result<string>)
      requires Valid()
      modifies this
      ensures Valid() && nextId == old(nextId)
      ensures r.Ok? <==> OwnsRecord(old(records), requester, id)
      ensures r.Err? ==> r.error == NotFound && records == old(records)
      ensures r.Ok? ==> r.value == Removed &&
                        exists i :: 0 <= i < |old(records)| && old(records)[i].id == id &&
                          old(records)[i].owner == requester &&
                          records == old(records)[..i] + old(records)[i + 1..]
    {
      var index := Find(id);
      if index.Some? && records[index.value].owner == requester {
        var i := index.value;
        records := records[..i] + records[i + 1..];
        r := Ok(Removed);
      } else {
        r := Err(NotFound);
      }
    }

    /** GET summary: the requester's income and expense totals and their
        difference; records of any other type count in neither. */
    method Summary(requester: UserId) returns (s: Reports.Summary)
      ensures s.totalIncome == Reports.KindTotal(records, requester, "income")
      ensures s.totalExpenses == Reports.KindTotal(records, requester, "expense")
      ensures s.balance == s.totalIncome - s.totalExpenses
    {
      var groups := Reports.TypeTotals(records, requester);
      Reports.TypeTotalsSpec(records, requester, "income");
      Reports.TypeTotalsSpec(records, requester, "expense");
      s := Reports.Summarize(groups);
    }
  }
}
