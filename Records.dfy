/** The transaction record the controller reads and writes, and the owner
    filter (`{user: req.user._id}`) every handler applies. */
module Records {
  import opened Common
  import opened Calendar

  type UserId = nat
  type TransactionId = nat

  /** The five fields a request body supplies. A field the body leaves out is
      `None` (undefined); the JSON field `type` is called `kind` here. */
  datatype Body = Body(
    kind: Option<string>,
    category: Option<string>,
    amount: Option<int>,
    description: Option<string>,
    date: Option<StoredDate>)

  /** A stored transaction: its id, its owner (`user`), and the body fields. */
  datatype Transaction = Transaction(
    id: TransactionId,
    owner: UserId,
    kind: Option<string>,
    category: Option<string>,
    amount: Option<int>,
    description: Option<string>,
    date: Option<StoredDate>)

  function BodyOf(t: Transaction): Body
  {
    Body(t.kind, t.category, t.amount, t.description, t.date)
  }

  /** The five assignments of the update handler: every field of the body
      replaces the record's, an omitted one included; id and owner stay. */
  function Overwrite(t: Transaction, b: Body): (u: Transaction)
    ensures u.id == t.id && u.owner == t.owner && BodyOf(u) == b
  {
    t.(kind := b.kind, category := b.category, amount := b.amount,
       description := b.description, date := b.date)
  }

  /** The amount `$sum` adds for a record: a missing amount adds nothing. */
  function AmountOf(t: Transaction): int
  {
    match t.amount
    case Some(a) => a
    case None => 0
  }

  /** `$match: {user: requester}` / `find({user: requester})`, keeping the order. */
  function Owned(rs: seq<Transaction>, user: UserId): (r: seq<Transaction>)
    ensures forall t :: t in r <==> t in rs && t.owner == user
    ensures |r| <= |rs|
  {
    if rs == [] then []
    else if rs[0].owner == user then [rs[0]] + Owned(rs[1..], user)
    else Owned(rs[1..], user)
  }
}
