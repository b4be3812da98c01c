/**
 Histories are gap-free and approvals honest under every interleaving; a published item can only be lost to a
 delete that read it before it was published.
 */
module ContentProofs {
  import opened Prelude
  import opened Content

  // ---------- one item's history ----------

  function History(versions: seq<Version>, id: Uuid): seq<Version> {
    if versions == [] then []
    else
      var n := |versions| - 1;
      if versions[n].contentId == id then History(versions[..n], id) + [versions[n]] else History(versions[..n], id)
  }

  /** An approved snapshot repeats a draft, a published one repeats an approved one, nothing follows a published one. */
  predicate Follows(prev: Version, next: Version) {
    && next.version == prev.version + 1
    && prev.status != Published
    && (next.status == Approved ==> prev.status == Draft && next.text == prev.text)
    && (next.status == Published ==> prev.status == Approved && next.text == prev.text)
  }

  predicate ValidHistory(h: seq<Version>) {
    if h == [] then false
    else if |h| == 1 then h[0].version == 1 && h[0].status == Draft
    else ValidHistory(h[..|h| - 1]) && Follows(h[|h| - 2], h[|h| - 1])
  }

  lemma {:induction false} HistoryIsGapFree(h: seq<Version>, k: nat)
    requires ValidHistory(h) && k < |h|
    ensures h[k].version == k + 1
    ensures k == 0 ==> h[k].status == Draft
    ensures 0 < k ==> Follows(h[k - 1], h[k])
    decreases |h|
  {
    if k < |h| - 1 {
      HistoryIsGapFree(h[..|h| - 1], k);
    } else if k > 0 {
      HistoryIsGapFree(h[..|h| - 1], k - 1);
    }
  }

  lemma HistoryPush(versions: seq<Version>, row: Version, id: Uuid)
    ensures History(versions + [row], id) ==
            if row.contentId == id then History(versions, id) + [row] else History(versions, id)
  {
    assert (versions + [row])[..|versions|] == versions;
  }

  lemma {:induction false} HistoryHolds(versions: seq<Version>, id: Uuid)
    ensures forall row :: row in History(versions, id) <==> row in versions && row.contentId == id
  {
    if versions != [] {
      var n := |versions| - 1;
      HistoryHolds(versions[..n], id);
      assert versions == versions[..n] + [versions[n]];
    }
  }

  lemma {:induction false} HistoryWithout(versions: seq<Version>, gone: Uuid, id: Uuid)
    ensures History(Without(versions, gone), id) == if id == gone then [] else History(versions, id)
  {
    if versions != [] {
      var n := |versions| - 1;
      HistoryWithout(versions[..n], gone, id);
      if versions[n].contentId != gone {
        HistoryPush(Without(versions[..n], gone), versions[n], id);
      }
    }
  }

  lemma {:induction false} WithoutHolds(versions: seq<Version>, gone: Uuid)
    ensures forall row :: row in Without(versions, gone) <==> row in versions && row.contentId != gone
  {
    if versions != [] {
      var n := |versions| - 1;
      WithoutHolds(versions[..n], gone);
      assert versions == versions[..n] + [versions[n]];
    }
  }

  // ---------- the invariant ----------

  predicate Records(row: Version, id: Uuid, item: Item) {
    row.contentId == id && row.version == item.version && row.text == item.text && row.status == item.status
  }

  /** The snapshots of an item are exactly versions 1 to its current one, and the last is the item. */
  predicate ItemOk(db: Db, id: Uuid)
    requires id in db.items
  {
    var h := History(db.versions, id);
    id < db.made && ValidHistory(h) && |h| == db.items[id].version && Records(h[|h| - 1], id, db.items[id])
  }

  predicate DbOk(db: Db) {
    && (forall id :: id in db.items ==> ItemOk(db, id))
    && (forall row :: row in db.versions ==> row.contentId in db.items)
  }

  /** What a transaction has read is one of the item's snapshots, if the item still exists. */
  predicate Seen(db: Db, id: Uuid, read: Item) {
    && id < db.made
    && (id in db.items ==>
          var h := History(db.versions, id);
          && read == db.items[id].(text := read.text, status := read.status, version := read.version)
          && 1 <= read.version <= |h| && Records(h[read.version - 1], id, read))
  }

  /** Among the items made before the transaction read, none has the generation that it looked for. */
  predicate NoneSeen(db: Db, source: Option<Uuid>, seen: nat) {
    && seen <= db.made
    && (source.Some? ==> forall id :: id in db.items && id < seen ==> db.items[id].source != source)
  }

  predicate TxnOk(db: Db, txn: Txn) {
    match txn
    case Insert(item, _, seen) => item.version == 1 && item.status == Draft && NoneSeen(db, item.source, seen)
    case Save(id, read, change, _) => Seen(db, id, read) && Allowed(change, read.status)
    case Delete(id, read) => Seen(db, id, read) && read.status != Published
  }

  predicate Inv(s: Sys) { DbOk(s.db) && forall txn :: txn in s.open ==> TxnOk(s.db, txn) }

  lemma ReadIsSeen(db: Db, id: Uuid)
    requires DbOk(db) && id in db.items
    ensures Seen(db, id, db.items[id])
  {
    assert ItemOk(db, id);
  }

  lemma BeginIsOk(db: Db, request: Request)
    requires DbOk(db) && Begin(db, request).Opened?
    ensures TxnOk(db, Begin(db, request).txn)
  {
    var txn := Begin(db, request).txn;
    if !txn.Insert? { ReadIsSeen(db, txn.id); }
    hide DbOk, Seen, ItemOk;
  }

  lemma TakenIffWritten(db: Db, id: Uuid, version: nat)
    requires DbOk(db) && id in db.items
    ensures Taken(db.versions, id, version) <==> 1 <= version <= db.items[id].version
  {
    var h := History(db.versions, id);
    assert ItemOk(db, id);
    HistoryHolds(db.versions, id);
    if 1 <= version <= db.items[id].version {
      HistoryIsGapFree(h, version - 1);
      assert h[version - 1] in h;
    }
    if Taken(db.versions, id, version) {
      var row :| row in db.versions && row.contentId == id && row.version == version;
      assert row in h;
      var k :| 0 <= k < |h| && h[k] == row;
      HistoryIsGapFree(h, k);
    }
  }

  /** Saving over the item that was read writes the saved one. */
  lemma WholeIsWritten(read: Item, saved: Item)
    requires saved == read.(text := saved.text, status := saved.status, version := saved.version)
    ensures Written(read, read, saved) == saved
  {}

  /** The unique constraint lets a save through exactly when the item is still the one it read. */
  lemma SavesOnlyWhatItRead(db: Db, id: Uuid, read: Item, change: Change, user: Uuid)
    requires DbOk(db) && TxnOk(db, Save(id, read, change, user))
    ensures Commit(db, Save(id, read, change, user)).Ok? <==> id in db.items && db.items[id] == read
    ensures id in db.items && db.items[id] == read ==>
              Commit(db, Save(id, read, change, user)).value ==
              db.(items := db.items[id := Changed(change, read)],
                  versions := db.versions + [Row(id, Changed(change, read), user)])
  {
    WholeIsWritten(read, Changed(change, read));
    hide Written;
    if id in db.items {
      assert ItemOk(db, id);
      TakenIffWritten(db, id, read.version + 1);
      hide DbOk, ValidHistory, Taken;
      if read.version == db.items[id].version {
        var h := History(db.versions, id);
        assert Records(h[|h| - 1], id, db.items[id]) && Records(h[|h| - 1], id, read);
        assert db.items[id] == read;
      }
    }
  }

  /** Items that outlive a commit keep their owner and origin, and their history only grows. */
  predicate Extends(db: Db, next: Db) {
    && db.made <= next.made
    && forall id :: id in next.items && id < db.made ==>
         && id in db.items
         && db.items[id] == next.items[id].(
              text := db.items[id].text, status := db.items[id].status, version := db.items[id].version)
         && History(db.versions, id) <= History(next.versions, id)
  }

  lemma ExtendingKeepsTxn(db: Db, next: Db, txn: Txn)
    requires Extends(db, next) && TxnOk(db, txn)
    ensures TxnOk(next, txn)
  {
  }

  lemma {:induction false} NoRowsNoHistory(versions: seq<Version>, id: Uuid)
    requires forall row :: row in versions ==> row.contentId != id
    ensures History(versions, id) == []
  {
    if versions != [] {
      assert versions[|versions| - 1] in versions;
      NoRowsNoHistory(versions[..|versions| - 1], id);
    }
  }

  lemma ItemOkMoves(db: Db, next: Db, id: Uuid)
    requires id in db.items && ItemOk(db, id) && db.made <= next.made
    requires id in next.items && next.items[id] == db.items[id]
    requires History(next.versions, id) == History(db.versions, id)
    ensures ItemOk(next, id)
  {
  }

  /** Writing an item together with a snapshot that continues its history keeps everything sound. */
  lemma WriteKeepsItems(db: Db, next: Db, id: Uuid, item: Item, row: Version)
    requires DbOk(db) && db.made <= next.made && id < next.made
    requires next.items == db.items[id := item] && next.versions == db.versions + [row]
    requires Records(row, id, item) && ValidHistory(History(db.versions, id) + [row])
    requires item.version == |History(db.versions, id)| + 1
    ensures DbOk(next)
    ensures History(next.versions, id) == History(db.versions, id) + [row]
    ensures forall other :: other != id ==> History(next.versions, other) == History(db.versions, other)
  {
    forall other | other != id ensures History(next.versions, other) == History(db.versions, other) {
      HistoryPush(db.versions, row, other);
    }
    HistoryPush(db.versions, row, id);
    forall other | other in next.items ensures ItemOk(next, other) {
      if other != id { ItemOkMoves(db, next, other); }
    }
  }

  lemma NewIdHasNoHistory(db: Db)
    requires DbOk(db)
    ensures db.made !in db.items && History(db.versions, db.made) == []
  {
    forall id | id in db.items ensures id != db.made { assert ItemOk(db, id); }
    NoRowsNoHistory(db.versions, db.made);
  }

  lemma InsertKeepsItems(db: Db, item: Item, user: Uuid, seen: nat)
    requires DbOk(db) && item.version == 1 && item.status == Draft
    ensures var next := Commit(db, Insert(item, user, seen)).value;
            && DbOk(next) && Extends(db, next)
            && forall id :: id != db.made ==> History(next.versions, id) == History(db.versions, id)
  {
    var row, next := Row(db.made, item, user), Commit(db, Insert(item, user, seen)).value;
    NewIdHasNoHistory(db);
    assert [] + [row] == [row];
    WriteKeepsItems(db, next, db.made, item, row);
  }

  /** A permitted change continues the history that ends with the item. */
  lemma ChangeContinues(h: seq<Version>, id: Uuid, item: Item, change: Change, user: Uuid)
    requires ValidHistory(h) && |h| == item.version && h != [] && Records(h[|h| - 1], id, item)
        && Allowed(change, item.status)
    ensures ValidHistory(h + [Row(id, Changed(change, item), user)])
  {
    var row := Row(id, Changed(change, item), user);
    assert Follows(h[|h| - 1], row);
    assert (h + [row])[..|h|] == h;
  }

  lemma SaveKeepsItems(db: Db, id: Uuid, change: Change, user: Uuid)
    requires DbOk(db) && id in db.items && Allowed(change, db.items[id].status)
    ensures var row := Row(id, Changed(change, db.items[id]), user);
            var next := db.(items := db.items[id := Changed(change, db.items[id])], versions := db.versions + [row]);
            && DbOk(next) && Extends(db, next)
            && History(next.versions, id) == History(db.versions, id) + [row]
            && forall other :: other != id ==> History(next.versions, other) == History(db.versions, other)
  {
    var saved := Changed(change, db.items[id]);
    var row, h := Row(id, saved, user), History(db.versions, id);
    var next := db.(items := db.items[id := saved], versions := db.versions + [row]);
    assert ItemOk(db, id);
    ChangeContinues(h, id, db.items[id], change, user);
    WriteKeepsItems(db, next, id, saved, row);
    assert Extends(db, next) by { SaveExtends(db, next, id, change, row); }
    hide *;
  }

  lemma SaveExtends(db: Db, next: Db, id: Uuid, change: Change, row: Version)
    requires id in db.items && next.made == db.made && next.items == db.items[id := Changed(change, db.items[id])]
    requires History(next.versions, id) == History(db.versions, id) + [row]
    requires forall other :: other != id ==> History(next.versions, other) == History(db.versions, other)
    ensures Extends(db, next)
  {
    hide History;
  }

  lemma DeleteKeepsItems(db: Db, id: Uuid, read: Item)
    requires DbOk(db)
    ensures var next := Commit(db, Delete(id, read)).value;
            && DbOk(next) && Extends(db, next)
            && forall other :: other != id ==> History(next.versions, other) == History(db.versions, other)
  {
    var next := Commit(db, Delete(id, read)).value;
    forall other ensures History(next.versions, other) == if other == id then [] else History(db.versions, other) {
      HistoryWithout(db.versions, id, other);
    }
    WithoutHolds(db.versions, id);
    forall other | other in next.items ensures ItemOk(next, other) {
      assert ItemOk(db, other);
    }
  }

  predicate Untouched(db: Db, next: Db, id: Uuid)
    requires id in db.items
  {
    id in next.items && next.items[id] == db.items[id] && History(next.versions, id) == History(db.versions, id)
  }

  lemma CommitExtends(db: Db, txn: Txn)
    requires DbOk(db) && TxnOk(db, txn) && Commit(db, txn).Ok?
    ensures DbOk(Commit(db, txn).value) && Extends(db, Commit(db, txn).value)
  {
    hide DbOk, History, Extends;
    match txn
    case Insert(item, user, seen) => InsertKeepsItems(db, item, user, seen);
    case Save(target, read, change, user) =>
      SavesOnlyWhatItRead(db, target, read, change, user);
      SaveKeepsItems(db, target, change, user);
    case Delete(target, read) => DeleteKeepsItems(db, target, read);
  }

  /** A save changes the item it read, which was not published. */
  lemma SaveLeavesPublished(db: Db, txn: Txn, id: Uuid)
    requires DbOk(db) && TxnOk(db, txn) && txn.Save? && Commit(db, txn).Ok?
    requires id in db.items && db.items[id].status == Published
    ensures txn.id != id && Untouched(db, Commit(db, txn).value, id)
  {
    SavesOnlyWhatItRead(db, txn.id, txn.read, txn.change, txn.user);
    hide DbOk, Commit, Changed;
    HistoryPush(db.versions, Row(txn.id, Changed(txn.change, txn.read), txn.user), id);
  }

  lemma CommitLeavesPublished(db: Db, txn: Txn, id: Uuid)
    requires DbOk(db) && TxnOk(db, txn) && Commit(db, txn).Ok?
    requires id in db.items && db.items[id].status == Published
    ensures Untouched(db, Commit(db, txn).value, id) <==> !(txn.Delete? && txn.id == id)
  {
    assert ItemOk(db, id);
    hide DbOk, History, Extends;
    match txn
    case Insert(item, user, seen) => InsertKeepsItems(db, item, user, seen);
    case Save(_, _, _, _) => SaveLeavesPublished(db, txn, id);
    case Delete(target, read) => DeleteKeepsItems(db, target, read);
  }

  /** A commit keeps every item sound; it leaves a published item alone unless it deletes it. */
  lemma CommitKeepsOk(db: Db, txn: Txn)
    requires DbOk(db) && TxnOk(db, txn) && Commit(db, txn).Ok?
    ensures DbOk(Commit(db, txn).value) && Extends(db, Commit(db, txn).value)
    ensures forall id :: id in db.items && db.items[id].status == Published ==>
                           (Untouched(db, Commit(db, txn).value, id) <==> !(txn.Delete? && txn.id == id))
  {
    hide *;
    CommitExtends(db, txn);
    forall id | id in db.items && db.items[id].status == Published
      ensures Untouched(db, Commit(db, txn).value, id) <==> !(txn.Delete? && txn.id == id)
    {
      CommitLeavesPublished(db, txn, id);
    }
  }

  lemma StepKeepsInv(s: Sys, step: Step)
    requires Inv(s)
    ensures Inv(Next(s, step))
  {
    match step
    case Reads(request) =>
      if Begin(s.db, request).Opened? { BeginIsOk(s.db, request); }
    case Writes(k) =>
      if k < |s.open| && Commit(s.db, s.open[k]).Ok? {
        CommitKeepsOk(s.db, s.open[k]);
        var next := Next(s, step);
        forall txn | txn in next.open ensures TxnOk(next.db, txn) { ExtendingKeepsTxn(s.db, next.db, txn); }
      }
    case Crashes(k) =>
  }

  /** In every run, under every interleaving: snapshots are exactly versions 1 to n and the last one is the item. */
  lemma {:induction false} RunKeepsInv(steps: seq<Step>)
    ensures Inv(RunAll(START, steps))
  {
    if steps != [] {
      RunKeepsInv(steps[..|steps| - 1]);
      StepKeepsInv(RunAll(START, steps[..|steps| - 1]), steps[|steps| - 1]);
    }
  }

  lemma PublishedTail(h: seq<Version>)
    requires ValidHistory(h) && |h| > 0 && h[|h| - 1].status == Published
    ensures 3 <= |h| && h[|h| - 2].status == Approved && h[|h| - 3].status == Draft
    ensures h[|h| - 1].text == h[|h| - 2].text == h[|h| - 3].text
  {
    HistoryIsGapFree(h, |h| - 1);
    HistoryIsGapFree(h, |h| - 2);
  }

  /** The last three snapshots of a published item are its draft, its approval and itself, with the same text. */
  lemma PublishedRepeatsApprovedDraft(steps: seq<Step>, id: Uuid)
    requires var db := RunAll(START, steps).db; id in db.items && db.items[id].status == Published
    ensures var db := RunAll(START, steps).db;
            var h, n := History(db.versions, id), db.items[id].version;
            && |h| == n && 3 <= n
            && h[n - 1].status == Published && h[n - 2].status == Approved && h[n - 3].status == Draft
            && h[n - 1].text == h[n - 2].text == h[n - 3].text == db.items[id].text
    ensures var db := RunAll(START, steps).db;
            forall k :: 0 <= k < |History(db.versions, id)| ==> History(db.versions, id)[k].version == k + 1
  {
    RunKeepsInv(steps);
    var db := RunAll(START, steps).db;
    var h := History(db.versions, id);
    assert ItemOk(db, id);
    PublishedTail(h);
    forall k | 0 <= k < |h| ensures h[k].version == k + 1 {
      HistoryIsGapFree(h, k);
    }
  }

  // ---------- interleaving looks serial for saves ----------

  /** A save that commits does exactly what the same request would have done alone at that moment. */
  lemma CommittedSaveIsAtomic(db: Db, id: Uuid, read: Item, change: Change, who: Identity)
    requires DbOk(db) && TxnOk(db, Save(id, read, change, who.user))
    requires change.Publish? ==> who.canPublish
    requires who.superadmin || read.account == who.account
    requires Commit(db, Save(id, read, change, who.user)).Ok?
    ensures Begin(db, Modify(id, change, who)) == Opened(Save(id, read, change, who.user))
    ensures Alone(db, Modify(id, change, who)) == Commit(db, Save(id, read, change, who.user)).value
  {
    SavesOnlyWhatItRead(db, id, read, change, who.user);
  }

  // ---------- what a request stores ----------

  predicate MayTouch(who: Identity, item: Item) { who.superadmin || who.account == item.account }

  /** Owner, creator, type and origin stay, and the version goes up by one. */
  predicate NextVersion(was: Item, saved: Item) {
    && saved.account == was.account && saved.createdBy == was.createdBy && saved.contentType == was.contentType
    && saved.source == was.source && saved.version == was.version + 1
  }

  /** Each field is what was given for it, or what it was before; the item is a draft again. */
  predicate Edited(was: Item, saved: Item, title: Option<string>, body: Option<string>, imageUrl: Option<string>,
      imageRef: Option<string>)
  {
    && NextVersion(was, saved) && saved.status == Draft
    && (match title { case Some(given) => saved.text.title == given case None => saved.text.title == was.text.title })
    && (match body { case Some(given) => saved.text.body == given case None => saved.text.body == was.text.body })
    && (if imageUrl.Some? then saved.text.imageUrl == imageUrl else saved.text.imageUrl == was.text.imageUrl)
    && (if imageRef.Some? then saved.text.imageRef == imageRef else saved.text.imageRef == was.text.imageRef)
  }

  /** Only the status moves: a draft is approved, an approved item is published. */
  predicate Moved(was: Item, saved: Item, change: Change) {
    && NextVersion(was, saved) && saved.text == was.text
    && (change.Approve? ==> was.status == Draft && saved.status == Approved)
    && (change.Publish? ==> was.status == Approved && saved.status == Published)
    && !change.Edit?
  }

  /** The snapshots afterwards: the ones before and one more, which holds exactly the item. */
  predicate Snapshotted(before: seq<Version>, after: seq<Version>, id: Uuid, item: Item, user: Uuid) {
    && |after| == |before| + 1 && after[..|before|] == before
    && Records(after[|before|], id, item) && after[|before|].editedBy == user
  }

  /**
   Under every interleaving, a save that commits stores exactly what the request gave, on top of the item as it is at
   that moment, with a snapshot of it, and touches nothing else.
   */
  lemma CommittedSaveExactly(db: Db, id: Uuid, read: Item, change: Change, user: Uuid)
    requires DbOk(db) && TxnOk(db, Save(id, read, change, user)) && Commit(db, Save(id, read, change, user)).Ok?
    ensures var next := Commit(db, Save(id, read, change, user)).value;
            && id in db.items && id in next.items && next.items == db.items[id := next.items[id]]
            && next.made == db.made
            && Snapshotted(db.versions, next.versions, id, next.items[id], user)
            && match change
               case Edit(title, body, url, asset) => Edited(db.items[id], next.items[id], title, body, url, asset)
               case _ => Moved(db.items[id], next.items[id], change)
  {
    SavesOnlyWhatItRead(db, id, read, change, user);
    hide DbOk, Seen, Commit;
    var row := Row(id, Changed(change, read), user);
    assert (db.versions + [row])[..|db.versions|] == db.versions;
    assert db.items[id := Changed(change, read)][id] == Changed(change, read);
  }

  /**
   Who may change what, and when: the owner's account or a super admin; edits until publication, approval of drafts,
   publication of approved items by those permitted.  What is opened read the item as it was.
   */
  lemma ModifyOpensExactly(db: Db, id: Uuid, change: Change, who: Identity)
    ensures var begun := Begin(db, Modify(id, change, who));
            && (begun.Opened? <==>
                  && id in db.items && MayTouch(who, db.items[id])
                  && (change.Edit? ==> db.items[id].status != Published)
                  && (change.Approve? ==> db.items[id].status == Draft)
                  && (change.Publish? ==> db.items[id].status == Approved && who.canPublish))
            && (begun.Opened? ==> begun.txn == Save(id, db.items[id], change, who.user))
            && !begun.Ignored?
  {}

  /** An unpublished item may be removed by those who may change it. */
  lemma RemoveOpensExactly(db: Db, id: Uuid, who: Identity)
    ensures var begun := Begin(db, Remove(id, who));
            && (begun.Opened? <==> id in db.items && MayTouch(who, db.items[id]) && db.items[id].status != Published)
            && (begun.Opened? ==> begun.txn == Delete(id, db.items[id]))
  {}

  predicate SourcesUnique(db: Db) {
    forall a, b | a in db.items && b in db.items && db.items[a].source.Some?
        && db.items[a].source == db.items[b].source :: a == b
  }

  ghost predicate FromSource(db: Db, generation: Uuid, id: Uuid) {
    id in db.items && db.items[id].source == Some(generation)
  }

  /** A generation makes an item exactly when it is a post with a text and no item comes from it yet. */
  lemma GenerationOpensExactly(db: Db, kind: string, account: Uuid, user: Uuid, generation: Uuid, text: Text)
    requires DbOk(db)
    ensures var begun := Begin(db, GenerationCompleted(kind, account, user, generation, text));
            && (begun.Opened? <==>
                  kind == "post" && text.body != "" && forall id :: !FromSource(db, generation, id))
            && (begun.Opened? ==>
                  && begun.txn.Insert? && begun.txn.item.source == Some(generation)
                  && begun.txn.item.account == account && begun.txn.item.createdBy == user
                  && begun.txn.item.text == text && begun.txn.item.status == Draft && begun.txn.item.version == 1)
            && !begun.Refused?
  {
    forall id | id in db.items ensures id < db.made { assert ItemOk(db, id); }
    var found := FromGeneration(db.items, generation, db.made);
    assert found.Some? ==> FromSource(db, generation, found.value);
  }

  /** Deleting a generation removes an item made from it exactly when there is one and it is unpublished. */
  lemma DeletionOpensExactly(db: Db, generation: Uuid)
    requires DbOk(db) && SourcesUnique(db)
    ensures var begun := Begin(db, GenerationDeleted(Some(generation)));
            && (begun.Opened? <==>
                  exists id :: FromSource(db, generation, id) && db.items[id].status != Published)
            && (begun.Opened? ==>
                  begun.txn.Delete? && FromSource(db, generation, begun.txn.id)
                  && begun.txn.read == db.items[begun.txn.id])
  {
    forall id | id in db.items ensures id < db.made { assert ItemOk(db, id); }
    var found := FromGeneration(db.items, generation, db.made);
    forall id | FromSource(db, generation, id) ensures found == Some(id) {
      assert found.Some? && db.items[found.value].source == db.items[id].source;
    }
    assert found.Some? ==> FromSource(db, generation, found.value);
  }

  // ---------- published items ----------

  predicate Deletes(s: Sys, step: Step, id: Uuid) {
    step.Writes? && step.k < |s.open| && s.open[step.k].Delete? && s.open[step.k].id == id
  }

  /** A step leaves a published item and its history as they are, unless and only unless it commits a delete of it. */
  lemma PublishedIsFinal(s: Sys, step: Step, id: Uuid)
    requires Inv(s) && id in s.db.items && s.db.items[id].status == Published
    ensures Untouched(s.db, Next(s, step).db, id) <==> !Deletes(s, step, id)
  {
    if step.Writes? && step.k < |s.open| {
      assert TxnOk(s.db, s.open[step.k]);
      if Commit(s.db, s.open[step.k]).Ok? { CommitKeepsOk(s.db, s.open[step.k]); }
    }
  }

  /** An open delete of a published item read it at an earlier version, before it was published. */
  lemma LateDeleteReadEarlier(s: Sys, step: Step, id: Uuid)
    requires Inv(s) && id in s.db.items && s.db.items[id].status == Published && Deletes(s, step, id)
    ensures s.open[step.k].read.status != Published && s.open[step.k].read.version < s.db.items[id].version
  {
    assert TxnOk(s.db, s.open[step.k]) && ItemOk(s.db, id);
  }

  lemma DeletesAreNotOfPublished(db: Db, request: Request)
    requires Begin(db, request).Opened? && Begin(db, request).txn.Delete?
    ensures var txn := Begin(db, request).txn; txn.id in db.items && db.items[txn.id].status != Published
  {}

  /** Requests that run one at a time never change or remove a published item. */
  lemma AlonePublishedIsFinal(db: Db, request: Request, id: Uuid)
    requires DbOk(db) && id in db.items && db.items[id].status == Published
    ensures DbOk(Alone(db, request)) && Untouched(db, Alone(db, request), id)
  {
    var begun := Begin(db, request);
    if begun.Opened? {
      BeginIsOk(db, request);
      if begun.txn.Delete? { DeletesAreNotOfPublished(db, request); }
      if Commit(db, begun.txn).Ok? { CommitKeepsOk(db, begun.txn); }
    }
  }

  predicate NoDelete(s: Sys, steps: seq<Step>, id: Uuid) {
    steps == [] || (NoDelete(s, steps[..|steps| - 1], id)
      && !Deletes(RunAll(s, steps[..|steps| - 1]), steps[|steps| - 1], id))
  }

  /** Over a whole run in which no such delete commits, a published item and its history stay for good. */
  lemma {:induction false} PublishedStays(s: Sys, steps: seq<Step>, id: Uuid)
    requires Inv(s) && id in s.db.items && s.db.items[id].status == Published && NoDelete(s, steps, id)
    ensures Inv(RunAll(s, steps)) && Untouched(s.db, RunAll(s, steps).db, id)
  {
    if steps != [] {
      var before := RunAll(s, steps[..|steps| - 1]);
      PublishedStays(s, steps[..|steps| - 1], id);
      PublishedIsFinal(before, steps[|steps| - 1], id);
      StepKeepsInv(before, steps[|steps| - 1]);
    }
  }

  // A draft, its approval and its publication, as three states of the tables.

  function DraftOf(text: Text, who: Identity): Item { Item(who.account, who.user, "post", None, text, Draft, 1) }

  function Drafted(item: Item, user: Uuid): Db { Db(map[0 := item], [Row(0, item, user)], 1) }

  function Approved2(item: Item): Item { item.(status := Approved, version := 2) }

  function ApprovedDb(item: Item, user: Uuid): Db {
    Db(map[0 := Approved2(item)], [Row(0, item, user), Row(0, Approved2(item), user)], 1)
  }

  function Published3(item: Item): Item { item.(status := Published, version := 3) }

  function PublishedDb(item: Item, user: Uuid): Db {
    Db(map[0 := Published3(item)],
       [Row(0, item, user), Row(0, Approved2(item), user), Row(0, Published3(item), user)], 1)
  }

  lemma ApproveCommits(item: Item, user: Uuid)
    requires item.status == Draft && item.version == 1
    ensures Commit(Drafted(item, user), Save(0, item, Approve, user)) == Ok(ApprovedDb(item, user))
  {
    var db := Drafted(item, user);
    assert !Taken(db.versions, 0, 2) && Written(item, item, Approved2(item)) == Approved2(item);
    assert db.items[0 := Approved2(item)] == ApprovedDb(item, user).items;
    assert db.versions + [Row(0, Approved2(item), user)] == ApprovedDb(item, user).versions;
  }

  lemma PublishCommits(item: Item, user: Uuid)
    requires item.status == Draft && item.version == 1
    ensures Commit(ApprovedDb(item, user), Save(0, Approved2(item), Publish, user)) == Ok(PublishedDb(item, user))
  {
    var db, approved := ApprovedDb(item, user), Approved2(item);
    assert !Taken(db.versions, 0, 3) && Written(approved, approved, Published3(item)) == Published3(item);
    assert db.items[0 := Published3(item)] == PublishedDb(item, user).items;
    assert db.versions + [Row(0, Published3(item), user)] == PublishedDb(item, user).versions;
  }

  lemma DraftThenDelete(text: Text, who: Identity)
    ensures var item, user := DraftOf(text, who), who.user;
            Next(Next(Next(START, Reads(Create(text, "post", who))), Writes(0)), Reads(Remove(0, who)))
            == Sys(Drafted(item, user), [Delete(0, item)])
  {
    var item, user := DraftOf(text, who), who.user;
    assert Next(START, Reads(Create(text, "post", who))) == Sys(EMPTY_DB, [Insert(item, user, 0)]);
    assert [] + [Row(0, item, user)] == [Row(0, item, user)] && Closed([Insert(item, user, 0)], 0) == [];
    assert Next(Sys(EMPTY_DB, [Insert(item, user, 0)]), Writes(0)) == Sys(Drafted(item, user), []);
  }

  lemma ThenApproved(text: Text, who: Identity)
    ensures var item, user := DraftOf(text, who), who.user;
            Next(Next(Sys(Drafted(item, user), [Delete(0, item)]), Reads(Modify(0, Approve, who))), Writes(1))
            == Sys(ApprovedDb(item, user), [Delete(0, item)])
  {
    var item, user := DraftOf(text, who), who.user;
    var gone := Delete(0, item);
    ApproveCommits(item, user);
    assert Next(Sys(Drafted(item, user), [gone]), Reads(Modify(0, Approve, who)))
        == Sys(Drafted(item, user), [gone, Save(0, item, Approve, user)]);
  }

  lemma ThenPublished(text: Text, who: Identity)
    requires who.canPublish
    ensures var item, user := DraftOf(text, who), who.user;
            Next(Next(Sys(ApprovedDb(item, user), [Delete(0, item)]), Reads(Modify(0, Publish, who))), Writes(1))
            == Sys(PublishedDb(item, user), [Delete(0, item)])
  {
    var item, user := DraftOf(text, who), who.user;
    var gone := Delete(0, item);
    PublishCommits(item, user);
    assert Next(Sys(ApprovedDb(item, user), [gone]), Reads(Modify(0, Publish, who)))
        == Sys(ApprovedDb(item, user), [gone, Save(0, Approved2(item), Publish, user)]);
  }

  /** Reachable: a delete reads a draft, the draft is approved and published, and then the delete commits. */
  lemma LateDeleteRemovesPublished(text: Text, who: Identity)
    requires who.canPublish
    ensures var steps := [Reads(Create(text, "post", who)), Writes(0), Reads(Remove(0, who)),
                          Reads(Modify(0, Approve, who)), Writes(1), Reads(Modify(0, Publish, who)), Writes(1)];
            var s := RunAll(START, steps);
            && 0 in s.db.items && s.db.items[0].status == Published
            && 0 !in Next(s, Writes(0)).db.items
  {
    var item, user := DraftOf(text, who), who.user;
    var gone := Delete(0, item);
    RunSeven(Reads(Create(text, "post", who)), Writes(0), Reads(Remove(0, who)),
             Reads(Modify(0, Approve, who)), Writes(1), Reads(Modify(0, Publish, who)), Writes(1));
    DraftThenDelete(text, who);
    ThenApproved(text, who);
    ThenPublished(text, who);
    assert 0 !in Next(Sys(PublishedDb(item, user), [gone]), Writes(0)).db.items;
    hide RunAll, Next;
  }

  lemma RunSeven(a: Step, b: Step, c: Step, d: Step, e: Step, f: Step, g: Step)
    ensures RunAll(START, [a, b, c, d, e, f, g]) == Next(Next(Next(Next(Next(Next(Next(START, a), b), c), d), e), f), g)
  {
    RunFour(a, b, c, d);
    assert [a, b, c, d, e, f, g][..6] == [a, b, c, d, e, f] && [a, b, c, d, e, f][..5] == [a, b, c, d, e];
    assert [a, b, c, d, e][..4] == [a, b, c, d];
    assert RunAll(START, [a, b, c, d, e]) == Next(RunAll(START, [a, b, c, d]), e);
    assert RunAll(START, [a, b, c, d, e, f]) == Next(RunAll(START, [a, b, c, d, e]), f);
  }

  // ---------- one item per generation ----------

  /** A delivery inserts its item although, after it looked, another one made an item from the same generation. */
  predicate Overtaken(s: Sys, step: Step) {
    && step.Writes? && step.k < |s.open| && s.open[step.k].Insert? && s.open[step.k].item.source.Some?
    && exists id :: id in s.db.items && s.open[step.k].seen <= id && s.db.items[id].source == s.open[step.k].item.source
  }

  /**
   No constraint guards the source, only the look before the insert: a step breaks uniqueness exactly when another
   delivery of the generation committed between the look and the insert.
   */
  lemma SourcesStayUniqueExactly(s: Sys, step: Step)
    requires Inv(s) && SourcesUnique(s.db)
    ensures SourcesUnique(Next(s, step).db) <==> !Overtaken(s, step)
  {
    if step.Writes? && step.k < |s.open| {
      var txn, db := s.open[step.k], s.db;
      assert TxnOk(db, txn);
      if txn.Save? {
        SavesOnlyWhatItRead(db, txn.id, txn.read, txn.change, txn.user);
      } else if txn.Insert? {
        var next := Next(s, step).db;
        forall id | id in db.items ensures id != db.made && next.items[id] == db.items[id] { assert ItemOk(db, id); }
        if Overtaken(s, step) {
          var id :| id in db.items && db.items[id].source == txn.item.source;
          assert id in next.items && db.made in next.items && next.items[db.made] == txn.item;
        }
      }
    }
  }

  predicate NeverOvertaken(steps: seq<Step>) {
    steps == []
    || (var n := |steps| - 1; NeverOvertaken(steps[..n]) && !Overtaken(RunAll(START, steps[..n]), steps[n]))
  }

  predicate UniqueThroughout(steps: seq<Step>) {
    SourcesUnique(RunAll(START, steps).db) && (steps != [] ==> UniqueThroughout(steps[..|steps| - 1]))
  }

  /** Over a run each generation has at most one item at every moment exactly when no delivery was overtaken. */
  lemma {:induction false} RunKeepsSourcesExactly(steps: seq<Step>)
    ensures UniqueThroughout(steps) <==> NeverOvertaken(steps)
  {
    if steps != [] {
      var n := |steps| - 1;
      RunKeepsSourcesExactly(steps[..n]);
      RunKeepsInv(steps[..n]);
      if UniqueThroughout(steps[..n]) {
        SourcesStayUniqueExactly(RunAll(START, steps[..n]), steps[n]);
      }
    }
  }

  /** Handled one at a time, any number of deliveries of a generation make at most one item. */
  lemma AloneKeepsSourcesUnique(db: Db, request: Request)
    requires DbOk(db) && SourcesUnique(db)
    ensures SourcesUnique(Alone(db, request))
  {
    var begun := Begin(db, request);
    if begun.Opened? {
      BeginIsOk(db, request);
      var s := Sys(db, [begun.txn]);
      forall id | id in db.items ensures id < db.made { assert ItemOk(db, id); }
      SourcesStayUniqueExactly(s, Writes(0));
    }
  }

  /** Reachable: two deliveries of one generation that both look before either writes make two items. */
  lemma TwoDeliveriesMakeTwoItems(account: Uuid, user: Uuid, generation: Uuid, text: Text)
    requires text.body != ""
    ensures var done := GenerationCompleted("post", account, user, generation, text);
            var db := RunAll(START, [Reads(done), Reads(done), Writes(0), Writes(0)]).db;
            && db.items.Keys == {0, 1} && db.items[0].source == db.items[1].source == Some(generation)
  {
    var done := GenerationCompleted("post", account, user, generation, text);
    var item := Item(account, user, "post", Some(generation), text, Draft, 1);
    var txn := Insert(item, user, 0);
    var one := Db(map[0 := item], [Row(0, item, user)], 1);
    var two := Db(map[0 := item, 1 := item], [Row(0, item, user), Row(1, item, user)], 2);
    RunFour(Reads(done), Reads(done), Writes(0), Writes(0));
    assert Begin(EMPTY_DB, done) == Opened(txn);
    assert Commit(EMPTY_DB, txn) == Ok(one) by { assert [] + [Row(0, item, user)] == [Row(0, item, user)]; }
    assert Commit(one, txn) == Ok(two) by {
      assert one.items[1 := item] == two.items && one.versions + [Row(1, item, user)] == two.versions;
    }
    assert Next(START, Reads(done)) == Sys(EMPTY_DB, [txn]);
    assert Next(Sys(EMPTY_DB, [txn]), Reads(done)) == Sys(EMPTY_DB, [txn, txn]);
    assert Next(Sys(EMPTY_DB, [txn, txn]), Writes(0)) == Sys(one, [txn]);
    assert Next(Sys(one, [txn]), Writes(0)).db == two;
  }

  lemma RunFour(a: Step, b: Step, c: Step, d: Step)
    ensures RunAll(START, [a, b, c, d]) == Next(Next(Next(Next(START, a), b), c), d)
  {
    assert [a, b, c, d][..3] == [a, b, c] && [a, b, c][..2] == [a, b] && [a, b][..1] == [a] && [a][..0] == [];
    assert RunAll(START, [a]) == Next(START, a);
    assert RunAll(START, [a, b]) == Next(RunAll(START, [a]), b);
    assert RunAll(START, [a, b, c]) == Next(RunAll(START, [a, b]), c);
  }
}
