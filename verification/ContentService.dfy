/** The content service's operations, each run on its own. */
module ContentServices {
  import opened Prelude
  import opened Content
  import opened ContentProofs

  /** What the caller gets back: the stored item, nothing, or the refusal. */
  function Reply(db: Db, request: Request): Result<Option<Item>, Error> {
    match Begin(db, request)
    case Refused(error) => Err(error)
    case Ignored => Ok(None)
    case Opened(Insert(item, _, _)) => Ok(Some(item))
    case Opened(Save(_, read, change, _)) => Ok(Some(Changed(change, read)))
    case Opened(Delete(_, _)) => Ok(None)
  }

  lemma DeletionAlone(db: Db, generation: Uuid, id: Uuid)
    requires FromGeneration(db.items, generation, db.made) == Some(id) && db.items[id].status != Published
    ensures Alone(db, GenerationDeleted(Some(generation))) ==
            db.(items := db.items - {id}, versions := Without(db.versions, id))
  {}

  class ContentService {
    var items: map<Uuid, Item>
    var versions: seq<Version>
    var made: nat

    function Contents(): Db reads this { Db(items, versions, made) }

    predicate Valid() reads this { DbOk(Contents()) }

    constructor ()
      ensures Valid() && Contents() == EMPTY_DB
    {
      items, versions, made := map[], [], 0;
    }

    method GetScoped(id: Uuid, who: Identity) returns (item: Result<Item, Error>)
      ensures item == Scoped(Contents(), id, who)
    {
      if id !in items { return Err(ContentNotFound); }
      if !who.superadmin && items[id].account != who.account { return Err(AccountScopeRequired); }
      return Ok(items[id]);
    }

    /** Adds an item with its first snapshot. */
    method Add(item: Item, user: Uuid)
      requires Valid() && item.version == 1 && item.status == Draft
      modifies this
      ensures Valid()
      ensures Contents() == Commit(old(Contents()), Insert(item, user, old(made))).value
    {
      ghost var after := Commit(Contents(), Insert(item, user, made)).value;
      assert DbOk(after) by { InsertKeepsItems(Contents(), item, user, made); }
      items := items[made := item];
      versions := versions + [Row(made, item, user)];
      made := made + 1;
      assert Contents() == after;
    }

    method Create(text: Text, contentType: string, who: Identity) returns (reply: Result<Option<Item>, Error>)
      requires Valid()
      modifies this
      ensures Valid()
      ensures Contents() == Alone(old(Contents()), Request.Create(text, contentType, who))
      ensures reply == Reply(old(Contents()), Request.Create(text, contentType, who))
      ensures old(made) in items && items == old(items)[old(made) := items[old(made)]]
      ensures Snapshotted(old(versions), versions, old(made), items[old(made)], who.user)
      ensures var item := items[old(made)];
              && reply == Ok(Some(item)) && made == old(made) + 1
              && item.account == who.account && item.createdBy == who.user && item.contentType == contentType
              && item.source.None? && item.text == text && item.status == Draft && item.version == 1
    {
      var item := Item(who.account, who.user, contentType, None, text, Draft, 1);
      Add(item, who.user);
      reply := Ok(Some(item));
    }

    /** The fields of the item one by one. */
    static method Rewritten(read: Item, change: Change) returns (item: Item)
      ensures item == Changed(change, read)
    {
      item := read;
      match change {
        case Edit(title, body, url, asset) =>
          if title.Some? { item := item.(text := item.text.(title := title.value)); }
          if body.Some? { item := item.(text := item.text.(body := body.value)); }
          if url.Some? { item := item.(text := item.text.(imageUrl := url)); }
          if asset.Some? { item := item.(text := item.text.(imageRef := asset)); }
          item := item.(status := Draft);
        case Approve => item := item.(status := Approved);
        case Publish => item := item.(status := Published);
      }
      item := item.(version := item.version + 1);
    }

    /** The shared tail of update, approve and publish: bump the version, store, snapshot. */
    method Store(id: Uuid, change: Change, who: Identity) returns (item: Item)
      requires Valid() && id in items && Allowed(change, items[id].status)
      modifies this
      ensures Valid() && item == Changed(change, old(items[id]))
      ensures Contents() ==
              old(Contents()).(items := old(items)[id := item], versions := old(versions) + [Row(id, item, who.user)])
    {
      ghost var before := Contents();
      SaveKeepsItems(before, id, change, who.user);
      item := Rewritten(items[id], change);
      hide DbOk, Changed, Extends, History;
      items := items[id := item];
      versions := versions + [Row(id, item, who.user)];
      assert Contents() == before.(items := items, versions := versions);
    }

    method Update(id: Uuid, title: Option<string>, body: Option<string>, imageUrl: Option<string>,
        imageRef: Option<string>, who: Identity)
      returns (reply: Result<Option<Item>, Error>)
      requires Valid()
      modifies this
      ensures Valid()
      ensures Contents() == Alone(old(Contents()), Modify(id, Edit(title, body, imageUrl, imageRef), who))
      ensures reply == Reply(old(Contents()), Modify(id, Edit(title, body, imageUrl, imageRef), who))
      ensures reply.Ok? <==>
              id in old(items) && MayTouch(who, old(items)[id]) && old(items)[id].status != Published
      ensures reply.Err? ==> Contents() == old(Contents())
      ensures reply.Ok? ==>
                && id in items && items == old(items)[id := items[id]] && reply == Ok(Some(items[id]))
                && Edited(old(items)[id], items[id], title, body, imageUrl, imageRef)
                && Snapshotted(old(versions), versions, id, items[id], who.user) && made == old(made)
    {
      var change := Edit(title, body, imageUrl, imageRef);
      var item := GetScoped(id, who);
      if item.Err? { return Err(item.error); }
      if item.value.status == Published { return Err(ContentLocked); }
      BeginIsOk(Contents(), Modify(id, change, who));
      SavesOnlyWhatItRead(Contents(), id, items[id], change, who.user);
      var stored := Store(id, change, who);
      reply := Ok(Some(stored));
    }

    method AttachImage(id: Uuid, imageUrl: string, imageRef: string, who: Identity)
        returns (reply: Result<Option<Item>, Error>)
      requires Valid()
      modifies this
      ensures Valid()
      ensures Contents() == Alone(old(Contents()), Modify(id, Edit(None, None, Some(imageUrl), Some(imageRef)), who))
      ensures reply == Reply(old(Contents()), Modify(id, Edit(None, None, Some(imageUrl), Some(imageRef)), who))
      ensures reply.Ok? <==>
              id in old(items) && MayTouch(who, old(items)[id]) && old(items)[id].status != Published
      ensures reply.Ok? ==>
                && id in items && items == old(items)[id := items[id]] && reply == Ok(Some(items[id]))
                && NextVersion(old(items)[id], items[id]) && items[id].status == Draft
                && items[id].text.title == old(items)[id].text.title
                && items[id].text.body == old(items)[id].text.body
                && items[id].text.imageUrl == Some(imageUrl) && items[id].text.imageRef == Some(imageRef)
    {
      reply := Update(id, None, None, Some(imageUrl), Some(imageRef), who);
    }

    method Transition(id: Uuid, change: Change, who: Identity) returns (reply: Result<Option<Item>, Error>)
      requires Valid() && !change.Edit? && (change.Publish? ==> who.canPublish)
      modifies this
      ensures Valid()
      ensures Contents() == Alone(old(Contents()), Modify(id, change, who))
      ensures reply == Reply(old(Contents()), Modify(id, change, who))
      ensures reply.Ok? <==>
              && id in old(items) && MayTouch(who, old(items)[id])
              && old(items)[id].status == if change.Approve? then Draft else Approved
      ensures reply.Err? ==> Contents() == old(Contents())
      ensures reply.Ok? ==>
                && id in items && items == old(items)[id := items[id]] && reply == Ok(Some(items[id]))
                && Moved(old(items)[id], items[id], change)
                && Snapshotted(old(versions), versions, id, items[id], who.user) && made == old(made)
    {
      var item := GetScoped(id, who);
      if item.Err? { return Err(item.error); }
      if !Allowed(change, item.value.status) { return Err(InvalidStatusTransition); }
      BeginIsOk(Contents(), Modify(id, change, who));
      SavesOnlyWhatItRead(Contents(), id, items[id], change, who.user);
      var stored := Store(id, change, who);
      reply := Ok(Some(stored));
    }

    method ApproveItem(id: Uuid, who: Identity) returns (reply: Result<Option<Item>, Error>)
      requires Valid()
      modifies this
      ensures Valid()
      ensures Contents() == Alone(old(Contents()), Modify(id, Approve, who))
      ensures reply == Reply(old(Contents()), Modify(id, Approve, who))
    {
      reply := Transition(id, Approve, who);
    }

    method PublishItem(id: Uuid, who: Identity) returns (reply: Result<Option<Item>, Error>)
      requires Valid()
      modifies this
      ensures Valid()
      ensures Contents() == Alone(old(Contents()), Modify(id, Publish, who))
      ensures reply == Reply(old(Contents()), Modify(id, Publish, who))
      ensures reply == Err(PublishPermissionRequired) <==> !who.canPublish
      ensures reply.Ok? <==>
              && who.canPublish && id in old(items) && MayTouch(who, old(items)[id])
              && old(items)[id].status == Approved
      ensures reply.Ok? ==> id in items && Moved(old(items)[id], items[id], Publish)
    {
      if !who.canPublish { return Err(PublishPermissionRequired); }
      reply := Transition(id, Publish, who);
    }

    method Erase(id: Uuid)
      requires Valid() && id in items
      modifies this
      ensures Valid()
      ensures Contents() == old(Contents()).(items := old(items) - {id}, versions := Without(old(versions), id))
      ensures forall row :: row in versions <==> row in old(versions) && row.contentId != id
      ensures forall other :: other != id ==> History(versions, other) == History(old(versions), other)
    {
      WithoutHolds(versions, id);
      ghost var after := Commit(Contents(), Delete(id, items[id])).value;
      DeleteKeepsItems(Contents(), id, items[id]);
      items := items - {id};
      versions := Without(versions, id);
      assert Contents() == after;
    }

    method DeleteItem(id: Uuid, who: Identity) returns (reply: Result<Option<Item>, Error>)
      requires Valid()
      modifies this
      ensures Valid()
      ensures Contents() == Alone(old(Contents()), Remove(id, who))
      ensures reply == Reply(old(Contents()), Remove(id, who))
      ensures reply.Ok? <==>
              id in old(items) && MayTouch(who, old(items)[id]) && old(items)[id].status != Published
      ensures reply.Err? ==> Contents() == old(Contents())
      ensures reply.Ok? ==>
                && items == old(items) - {id} && made == old(made)
                && (forall row :: row in versions <==> row in old(versions) && row.contentId != id)
                && forall other :: other != id ==> History(versions, other) == History(old(versions), other)
    {
      var item := GetScoped(id, who);
      if item.Err? { return Err(item.error); }
      if item.value.status == Published { return Err(ContentLocked); }
      Erase(id);
      reply := Ok(None);
    }

    method HandleGenerationCompleted(kind: string, account: Uuid, user: Uuid, generation: Uuid, text: Text)
      requires Valid()
      modifies this
      ensures Valid()
      ensures Contents() == Alone(old(Contents()), GenerationCompleted(kind, account, user, generation, text))
      ensures kind != "post" || text.body == "" || (exists id :: FromSource(old(Contents()), generation, id)) ==>
                Contents() == old(Contents())
      ensures kind == "post" && text.body != "" && (forall id :: !FromSource(old(Contents()), generation, id)) ==>
                && made == old(made) + 1 && old(made) in items && items == old(items)[old(made) := items[old(made)]]
                && items[old(made)] == Item(account, user, "post", Some(generation), text, Draft, 1)
                && Snapshotted(old(versions), versions, old(made), items[old(made)], user)
    {
      GenerationOpensExactly(Contents(), kind, account, user, generation, text);
      if kind != "post" || text.body == "" { return; }
      var existing := FromGeneration(items, generation, made);
      if existing.Some? { return; }
      var item := Item(account, user, "post", Some(generation), text, Draft, 1);
      Add(item, user);
    }

    method HandleGenerationDeleted(source: Option<Uuid>)
      requires Valid()
      modifies this
      ensures Valid()
      ensures Contents() == Alone(old(Contents()), GenerationDeleted(source))
      ensures source.None? ==> Contents() == old(Contents())
      ensures source.Some? && old(SourcesUnique(Contents())) ==>
                forall id :: id in items <==>
                  && id in old(items)
                  && !(FromSource(old(Contents()), source.value, id) && old(items)[id].status != Published)
    {
      if source.Some? && SourcesUnique(Contents()) { DeletionOpensExactly(Contents(), source.value); }
      if source.None? { return; }
      var found := FromGeneration(items, source.value, made);
      if found.None? || items[found.value].status == Published { return; }
      DeletionAlone(Contents(), source.value, found.value);
      hide DbOk, Without, Alone, FromGeneration;
      Erase(found.value);
    }
  }
}
