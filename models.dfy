/** The persistent records the pipeline reads (users, items, interactions),
    held as plain values: a database is two maps keyed by primary key and
    the interaction table in row order. */
module Models {

  datatype Option<T> = None | Some(value: T) {
    function GetOr(default: T): T {
      match this
      case Some(v) => v
      case None => default
    }
  }

  type ItemId = int
  type UserId = int

  /** A point in time, in whole seconds on one reference clock. */
  type Timestamp = int

  datatype User = User(id: UserId, name: string, block: string)

  datatype Item = Item(
    id: ItemId,
    title: string,
    description: Option<string>,
    community: string,
    createdAt: Option<Timestamp>)

  datatype Interaction = Interaction(
    userId: UserId,
    itemId: ItemId,
    interactionType: string,
    timestamp: Option<Timestamp>)

  datatype Database = Database(
    users: map<UserId, User>,
    items: map<ItemId, Item>,
    interactions: seq<Interaction>)

  /** `db.query(Item).get(id)`. */
  function GetItem(db: Database, id: ItemId): Option<Item> {
    if id in db.items then Some(db.items[id]) else None
  }

  /** `db.query(User).get(id)`. */
  function GetUser(db: Database, id: UserId): Option<User> {
    if id in db.users then Some(db.users[id]) else None
  }

  /** Provenance tags: "content", "cf", "pop-comm", "pop-global", "fallback". */
  datatype Tag = ContentTag | CfTag | PopCommTag | PopGlobalTag | FallbackTag

  /** A fused candidate: `{"item_id": ..., "sources": [...]}`. */
  datatype Candidate = Candidate(itemId: ItemId, sources: set<Tag>)
}
