/**
 Content items and their version snapshots.  Unlike the credit tables these transactions take no lock: each
 one reads an item, checks its status, and writes later, so reads and writes of different requests interleave.
 What keeps them apart is the unique constraint on (content_id, version).
 */
module Content {
  import opened Prelude

  datatype Status = Draft | Approved | Published

  datatype Identity = Identity(user: Uuid, account: Uuid, canPublish: bool, superadmin: bool)

  datatype Text = Text(title: string, body: string, imageUrl: Option<string>, imageRef: Option<string>)

  datatype Item = Item(
    account: Uuid, createdBy: Uuid, contentType: string, source: Option<Uuid>, text: Text, status: Status, version: nat)

  datatype Version = Version(contentId: Uuid, version: nat, text: Text, status: Status, editedBy: Uuid)

  /** made counts the ids drawn so far, so the next item's id is made. */
  datatype Db = Db(items: map<Uuid, Item>, versions: seq<Version>, made: nat)

  const EMPTY_DB := Db(map[], [], 0)

  datatype Error =
    | ContentNotFound | AccountScopeRequired | ContentLocked | InvalidStatusTransition | PublishPermissionRequired
    | IntegrityError | StaleData

  /** A field of an edit that is None keeps its value. */
  datatype Change =
    | Edit(title: Option<string>, body: Option<string>, imageUrl: Option<string>, imageRef: Option<string>)
    | Approve
    | Publish

  datatype Request =
    | Create(text: Text, contentType: string, who: Identity)
    | Modify(id: Uuid, change: Change, who: Identity)
    | Remove(id: Uuid, who: Identity)
    | GenerationCompleted(kind: string, account: Uuid, user: Uuid, generation: Uuid, text: Text)
    | GenerationDeleted(source: Option<Uuid>)

  /** What a transaction has read and is about to write; seen is how many items had been made when it read. */
  datatype Txn =
    | Insert(item: Item, user: Uuid, seen: nat)
    | Save(id: Uuid, read: Item, change: Change, user: Uuid)
    | Delete(id: Uuid, read: Item)

  datatype Begun = Opened(txn: Txn) | Ignored | Refused(error: Error)

  function Or<T>(given: Option<T>, kept: T): T { if given.Some? then given.value else kept }

  function OrElse<T>(given: Option<T>, kept: Option<T>): Option<T> { if given.Some? then given else kept }

  /** The status tests of update, approve and publish. */
  predicate Allowed(change: Change, status: Status) {
    match change
    case Edit(_, _, _, _) => status != Published
    case Approve => status == Draft
    case Publish => status == Approved
  }

  function Changed(change: Change, item: Item): Item {
    match change
    case Edit(title, body, url, asset) =>
      item.(text := Text(Or(title, item.text.title), Or(body, item.text.body),
                         OrElse(url, item.text.imageUrl), OrElse(asset, item.text.imageRef)),
            status := Draft, version := item.version + 1)
    case Approve => item.(status := Approved, version := item.version + 1)
    case Publish => item.(status := Published, version := item.version + 1)
  }

  function Scoped(db: Db, id: Uuid, who: Identity): Result<Item, Error> {
    if id !in db.items then Err(ContentNotFound)
    else if !who.superadmin && db.items[id].account != who.account then Err(AccountScopeRequired)
    else Ok(db.items[id])
  }

  /** The earliest item made from a generation. */
  function FromGeneration(items: map<Uuid, Item>, generation: Uuid, upTo: nat): (found: Option<Uuid>)
    ensures found.Some? ==> found.value < upTo && found.value in items && items[found.value].source == Some(generation)
    ensures found.None? ==> forall id | id < upTo && id in items :: items[id].source != Some(generation)
  {
    if upTo == 0 then None
    else
      var found := FromGeneration(items, generation, upTo - 1);
      if found.None? && upTo - 1 in items && items[upTo - 1].source == Some(generation) then Some(upTo - 1) else found
  }

  /** The reading half of every operation. */
  function Begin(db: Db, request: Request): Begun {
    match request
    case Create(text, contentType, who) =>
      Opened(Insert(Item(who.account, who.user, contentType, None, text, Draft, 1), who.user, db.made))
    case Modify(id, change, who) =>
      if change.Publish? && !who.canPublish then Refused(PublishPermissionRequired)
      else
        var item := Scoped(db, id, who);
        if item.Err? then Refused(item.error)
        else if !Allowed(change, item.value.status) then
          Refused(if change.Edit? then ContentLocked else InvalidStatusTransition)
        else Opened(Save(id, item.value, change, who.user))
    case Remove(id, who) =>
      var item := Scoped(db, id, who);
      if item.Err? then Refused(item.error)
      else if item.value.status == Published then Refused(ContentLocked)
      else Opened(Delete(id, item.value))
    case GenerationCompleted(kind, account, user, generation, text) =>
      if kind != "post" || text.body == "" || FromGeneration(db.items, generation, db.made).Some? then Ignored
      else Opened(Insert(Item(account, user, "post", Some(generation), text, Draft, 1), user, db.made))
    case GenerationDeleted(generation) =>
      if generation.None? then Ignored
      else
        var found := FromGeneration(db.items, generation.value, db.made);
        if found.None? || db.items[found.value].status == Published then Ignored
        else Opened(Delete(found.value, db.items[found.value]))
  }

  function Row(id: Uuid, item: Item, user: Uuid): Version { Version(id, item.version, item.text, item.status, user) }

  predicate Taken(versions: seq<Version>, id: Uuid, version: nat) {
    exists row :: row in versions && row.contentId == id && row.version == version
  }

  /** An update statement names only the columns whose value the transaction changed. */
  function Column<T(==)>(current: T, read: T, saved: T): T { if saved != read then saved else current }

  function Written(current: Item, read: Item, saved: Item): Item {
    current.(
      text := Text(Column(current.text.title, read.text.title, saved.text.title),
                   Column(current.text.body, read.text.body, saved.text.body),
                   Column(current.text.imageUrl, read.text.imageUrl, saved.text.imageUrl),
                   Column(current.text.imageRef, read.text.imageRef, saved.text.imageRef)),
      status := Column(current.status, read.status, saved.status),
      version := Column(current.version, read.version, saved.version))
  }

  /** Deleting an item deletes its snapshots. */
  function Without(versions: seq<Version>, id: Uuid): seq<Version> {
    if versions == [] then []
    else
      var n := |versions| - 1;
      if versions[n].contentId == id then Without(versions[..n], id) else Without(versions[..n], id) + [versions[n]]
  }

  /** The writing half: the flush and commit, judged by the rows present at that moment. */
  function Commit(db: Db, txn: Txn): Result<Db, Error> {
    match txn
    case Insert(item, user, _) =>
      Ok(Db(db.items[db.made := item], db.versions + [Row(db.made, item, user)], db.made + 1))
    case Save(id, read, change, user) =>
      var saved := Changed(change, read);
      if id !in db.items then Err(StaleData)
      else if Taken(db.versions, id, saved.version) then Err(IntegrityError)
      else Ok(db.(items := db.items[id := Written(db.items[id], read, saved)],
                  versions := db.versions + [Row(id, saved, user)]))
    case Delete(id, _) => Ok(db.(items := db.items - {id}, versions := Without(db.versions, id)))
  }

  // ---------- interleaved runs ----------

  datatype Sys = Sys(db: Db, open: seq<Txn>)

  const START := Sys(EMPTY_DB, [])

  /** A request reads; an open transaction writes; or its process dies and it is rolled back. */
  datatype Step = Reads(request: Request) | Writes(k: nat) | Crashes(k: nat)

  function Closed(open: seq<Txn>, k: nat): seq<Txn>
    requires k < |open|
  {
    open[..k] + open[k + 1..]
  }

  function Next(s: Sys, step: Step): Sys {
    match step
    case Reads(request) =>
      var begun := Begin(s.db, request);
      if begun.Opened? then s.(open := s.open + [begun.txn]) else s
    case Writes(k) =>
      if k < |s.open| then
        var result := Commit(s.db, s.open[k]);
        Sys(if result.Ok? then result.value else s.db, Closed(s.open, k))
      else s
    case Crashes(k) => if k < |s.open| then s.(open := Closed(s.open, k)) else s
  }

  function RunAll(s: Sys, steps: seq<Step>): Sys {
    if steps == [] then s else Next(RunAll(s, steps[..|steps| - 1]), steps[|steps| - 1])
  }

  /** One request alone: its write follows its read at once. */
  function Alone(db: Db, request: Request): Db {
    var begun := Begin(db, request);
    if begun.Opened? && Commit(db, begun.txn).Ok? then Commit(db, begun.txn).value else db
  }
}
