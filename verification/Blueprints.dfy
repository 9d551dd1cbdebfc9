/**
 * Device blueprints: a draft that may be replaced and a chain of published revisions.
 *
 * Revision rows are kept in the order of insertion. Names, descriptions and creation times decide
 * nothing here and are not part of the rows.
 */
module Blueprints {
  import opened Limits
  import opened Wrappers

  datatype Blueprint = Blueprint(tenant: string, key: string, updatedAt: int)
  datatype Draft = Draft(id: string, document: string, updatedAt: int)
  datatype Revision = Revision(id: string, blueprint: string, number: int, document: string, hash: string, compatibility: string)

  datatype Db = Db(blueprints: map<string, Blueprint>, drafts: map<string, Draft>, revisions: seq<Revision>)

  datatype Publication = Publication(
    revisionId: string,
    expectedPrevious: Option<string>,
    expectedUpdatedAt: int,
    document: string,
    hash: string,
    compatibility: string,
    now: int)

  datatype Outcome =
    | Created
    | Replaced
    | Published(revision: Revision)
    | NotFound
    | DraftChanged
    | PublicationChanged
    | Failed

  const HASH_LENGTH := 64

  predicate Exists(db: Db, tenant: string, id: string) { id in db.blueprints && db.blueprints[id].tenant == tenant }

  /** Whether another blueprint of the tenant has the key. */
  predicate KeyTaken(db: Db, tenant: string, key: string, holder: string) {
    exists b :: b in db.blueprints && b != holder && db.blueprints[b].tenant == tenant && db.blueprints[b].key == key
  }

  /** The unique index on tenant and key. */
  predicate KeysUnique(db: Db) {
    forall a, b :: a in db.blueprints && b in db.blueprints && a != b && db.blueprints[a].tenant == db.blueprints[b].tenant
                   ==> db.blueprints[a].key != db.blueprints[b].key
  }

  predicate DraftIdTaken(db: Db, id: string) { exists b :: b in db.drafts && db.drafts[b].id == id }

  function Create(db: Db, tenant: string, id: string, key: string, draftId: string, document: string, now: int): (Db, Outcome) {
    if id in db.blueprints || KeyTaken(db, tenant, key, id) || id in db.drafts || DraftIdTaken(db, draftId) then (db, Failed)
    else
      (db.(blueprints := db.blueprints[id := Blueprint(tenant, key, now)],
           drafts := db.drafts[id := Draft(draftId, document, now)]),
       Created)
  }

  function ReplaceDraft(db: Db, tenant: string, id: string, key: string, document: string, now: int): (Db, Outcome) {
    if !Exists(db, tenant, id) then (db, NotFound)
    else if KeyTaken(db, tenant, key, id) || id !in db.drafts then (db, Failed)
    else
      (db.(blueprints := db.blueprints[id := Blueprint(tenant, key, now)],
           drafts := db.drafts[id := db.drafts[id].(document := document, updatedAt := now)]),
       Replaced)
  }

  /** The row of a blueprint with the largest number. */
  function Latest(rows: seq<Revision>, blueprint: string): Option<Revision> {
    if rows == [] then None
    else
      var best := Latest(rows[..|rows| - 1], blueprint);
      var row := rows[|rows| - 1];
      if row.blueprint == blueprint && (best.None? || row.number > best.value.number) then Some(row) else best
  }

  /** The latest row is a row of the blueprint, none has a larger number, and it is missing only when there is none. */
  lemma {:induction false} LatestIsLargest(rows: seq<Revision>, blueprint: string)
    ensures match Latest(rows, blueprint)
            case Some(r) => r in rows && r.blueprint == blueprint && forall x :: x in rows && x.blueprint == blueprint ==> x.number <= r.number
            case None => forall x :: x in rows ==> x.blueprint != blueprint
  {
    if rows != [] {
      LatestIsLargest(rows[..|rows| - 1], blueprint);
      forall x | x in rows ensures x in rows[..|rows| - 1] || x == rows[|rows| - 1] {
        var i :| 0 <= i < |rows| && rows[i] == x;
      }
    }
  }

  /** `max(revision)` over the rows of a blueprint, or zero. */
  function MaxNumber(rows: seq<Revision>, blueprint: string): int {
    match Latest(rows, blueprint) case Some(r) => r.number case None => 0
  }

  function IdOf(r: Option<Revision>): Option<string> { match r case Some(v) => Some(v.id) case None => None }

  predicate IdTaken(rows: seq<Revision>, id: string) { exists i :: 0 <= i < |rows| && rows[i].id == id }

  function NewRevision(db: Db, id: string, p: Publication): Revision {
    Revision(p.revisionId, id, MaxNumber(db.revisions, id) + 1, p.document, p.hash, p.compatibility)
  }

  predicate DraftIsAsRead(db: Db, id: string, p: Publication) {
    id in db.drafts && db.drafts[id].updatedAt == p.expectedUpdatedAt && db.drafts[id].document == p.document
  }

  predicate SameContent(r: Revision, p: Publication) { r.hash == p.hash && r.document == p.document }

  function Publish(db: Db, tenant: string, id: string, p: Publication): (Db, Outcome) {
    if !Exists(db, tenant, id) || id !in db.drafts then (db, NotFound)
    else if !DraftIsAsRead(db, id, p) then (db, DraftChanged)
    else
      var latest := Latest(db.revisions, id);
      if latest.Some? && SameContent(latest.value, p) then (db, Published(latest.value))
      else if IdOf(latest) != p.expectedPrevious then (db, PublicationChanged)
      else if MaxNumber(db.revisions, id) >= I32_MAX || IdTaken(db.revisions, p.revisionId) || |p.hash| != HASH_LENGTH then (db, Failed)
      else
        (db.(revisions := db.revisions + [NewRevision(db, id, p)],
             blueprints := db.blueprints[id := db.blueprints[id].(updatedAt := p.now)]),
         Published(NewRevision(db, id, p)))
  }

  /** The request still fits: the draft is as read, what it publishes is new, and its predecessor is the latest. */
  predicate Publishable(db: Db, tenant: string, id: string, p: Publication) {
    var latest := Latest(db.revisions, id);
    && id in db.blueprints && db.blueprints[id].tenant == tenant && id in db.drafts
    && db.drafts[id].updatedAt == p.expectedUpdatedAt && db.drafts[id].document == p.document
    && (match latest
        case Some(r) => (r.hash != p.hash || r.document != p.document) && p.expectedPrevious == Some(r.id) && r.number < I32_MAX
        case None => p.expectedPrevious == None)
    && (forall r :: r in db.revisions ==> r.id != p.revisionId) && |p.hash| == 64
  }

  /** Which answer a publication gives. */
  predicate PublishAnswers(db: Db, tenant: string, id: string, p: Publication, outcome: Outcome) {
    var found := id in db.blueprints && db.blueprints[id].tenant == tenant && id in db.drafts;
    var asRead := found && db.drafts[id] == Draft(db.drafts[id].id, p.document, p.expectedUpdatedAt);
    var latest := Latest(db.revisions, id);
    var repeated := latest.Some? && latest.value.hash == p.hash && latest.value.document == p.document;
    && (outcome.NotFound? <==> !found)
    && (outcome.DraftChanged? <==> found && !asRead)
    && (outcome.PublicationChanged? <==> asRead && !repeated && p.expectedPrevious != (if latest.Some? then Some(latest.value.id) else None))
    && (outcome.Published? <==> (asRead && repeated) || Publishable(db, tenant, id, p))
    && (asRead && repeated ==> outcome == Published(latest.value))
  }

  /** A publication that fits is written, under the next number, and no other one is. */
  lemma PublishedExactly(db: Db, tenant: string, id: string, p: Publication)
    ensures var (after, outcome) := Publish(db, tenant, id, p);
            && PublishAnswers(db, tenant, id, p, outcome)
            && (if Publishable(db, tenant, id, p) then
                  var number := match Latest(db.revisions, id) case Some(r) => r.number + 1 case None => 1;
                  && outcome == Published(Revision(p.revisionId, id, number, p.document, p.hash, p.compatibility))
                  && after == db.(revisions := db.revisions + [outcome.revision],
                                  blueprints := db.blueprints[id := db.blueprints[id].(updatedAt := p.now)])
                else after == db)
  {
    assert IdTaken(db.revisions, p.revisionId) <==> exists r :: r in db.revisions && r.id == p.revisionId by {
      if r :| r in db.revisions && r.id == p.revisionId { var i :| 0 <= i < |db.revisions| && db.revisions[i] == r; }
    }
  }

  /** The tables as the repository updates them in place. */
  class BlueprintRepository {
    var blueprints: map<string, Blueprint>
    var drafts: map<string, Draft>
    var revisions: seq<Revision>

    function View(): Db
      reads this
    {
      Db(blueprints, drafts, revisions)
    }

    constructor ()
      ensures View() == Db(map[], map[], [])
    {
      blueprints, drafts, revisions := map[], map[], [];
    }

    /** Blueprint and draft appear together under unused ids and an unused key, or nothing changes. */
    method Add(tenant: string, id: string, key: string, draftId: string, document: string, now: int) returns (outcome: Outcome)
      modifies this
      ensures (View(), outcome) == Create(old(View()), tenant, id, key, draftId, document, now)
      ensures KeysUnique(old(View())) ==> KeysUnique(View())
      ensures outcome.Created? <==>
                && id !in old(blueprints) && id !in old(drafts)
                && (forall b :: b in old(blueprints) ==> old(blueprints)[b].tenant != tenant || old(blueprints)[b].key != key)
                && (forall b :: b in old(drafts) ==> old(drafts)[b].id != draftId)
      ensures outcome.Created? ==>
                id in blueprints && blueprints[id] == Blueprint(tenant, key, now) && id in drafts && drafts[id] == Draft(draftId, document, now)
      ensures blueprints - {id} == old(blueprints) - {id} && drafts - {id} == old(drafts) - {id} && revisions == old(revisions)
      ensures !outcome.Created? ==> View() == old(View())
    {
      if id in blueprints || KeyTaken(View(), tenant, key, id) || id in drafts || DraftIdTaken(View(), draftId) { return Failed; }
      blueprints := blueprints[id := Blueprint(tenant, key, now)];
      drafts := drafts[id := Draft(draftId, document, now)];
      return Created;
    }

    /** An existing blueprint gets the document and key, keys stay unique, and no other blueprint and no revision changes. */
    method SetDraft(tenant: string, id: string, key: string, document: string, now: int) returns (outcome: Outcome)
      modifies this
      ensures (View(), outcome) == ReplaceDraft(old(View()), tenant, id, key, document, now)
      ensures KeysUnique(old(View())) ==> KeysUnique(View())
      ensures outcome.NotFound? <==> !(id in old(blueprints) && old(blueprints)[id].tenant == tenant)
      ensures outcome.Replaced? <==>
                && id in old(blueprints) && old(blueprints)[id].tenant == tenant && id in old(drafts)
                && (forall b :: b in old(blueprints) && b != id ==> old(blueprints)[b].tenant != tenant || old(blueprints)[b].key != key)
      ensures outcome.Replaced? ==>
                && id in blueprints && blueprints[id] == Blueprint(tenant, key, now)
                && id in drafts && drafts[id] == Draft(old(drafts)[id].id, document, now)
      ensures blueprints - {id} == old(blueprints) - {id} && drafts - {id} == old(drafts) - {id} && revisions == old(revisions)
      ensures !outcome.Replaced? ==> View() == old(View())
    {
      if !Exists(View(), tenant, id) { return NotFound; }
      if KeyTaken(View(), tenant, key, id) || id !in drafts { return Failed; }
      blueprints := blueprints[id := Blueprint(tenant, key, now)];
      drafts := drafts[id := drafts[id].(document := document, updatedAt := now)];
      return Replaced;
    }

    /** The scan behind `ORDER BY revision DESC LIMIT 1`. */
    method FindLatest(id: string) returns (best: Option<Revision>)
      ensures best == Latest(revisions, id)
      ensures match best
              case Some(r) => r in revisions && r.blueprint == id && forall x :: x in revisions && x.blueprint == id ==> x.number <= r.number
              case None => forall x :: x in revisions ==> x.blueprint != id
    {
      best := None;
      for i := 0 to |revisions|
        invariant best == Latest(revisions[..i], id)
      {
        var row := revisions[i];
        assert revisions[..i + 1][..i] == revisions[..i];
        if row.blueprint == id && (best.None? || row.number > best.value.number) { best := Some(row); }
      }
      assert revisions[..|revisions|] == revisions;
      LatestIsLargest(revisions, id);
    }

    /**
     * Writes exactly the publications that fit. A published revision holds the draft's document and is the latest:
     * either it was, and nothing is written, or it is new, follows the expected predecessor and has a number above
     * all others.
     */
    method PublishDraft(tenant: string, id: string, p: Publication) returns (outcome: Outcome)
      modifies this
      ensures (View(), outcome) == Publish(old(View()), tenant, id, p)
      ensures PublishAnswers(old(View()), tenant, id, p, outcome)
      ensures revisions != old(revisions) <==> Publishable(old(View()), tenant, id, p)
      ensures drafts == old(drafts) && old(revisions) <= revisions && blueprints - {id} == old(blueprints) - {id}
      ensures outcome.Published? ==>
                && id in drafts && outcome.revision.document == drafts[id].document == p.document && outcome.revision.hash == p.hash
                && Latest(revisions, id) == Some(outcome.revision)
      ensures revisions != old(revisions) ==>
                && outcome.Published? && revisions == old(revisions) + [outcome.revision]
                && outcome.revision.id == p.revisionId && outcome.revision.blueprint == id && outcome.revision.compatibility == p.compatibility
                && id in blueprints && blueprints[id] == old(blueprints)[id].(updatedAt := p.now)
                && forall r :: r in old(revisions) && r.blueprint == id ==> r.number < outcome.revision.number
      ensures revisions == old(revisions) ==> View() == old(View())
    {
      PublishedExactly(View(), tenant, id, p);
      if !Exists(View(), tenant, id) { return NotFound; }
      if id !in drafts { return NotFound; }
      if drafts[id].updatedAt != p.expectedUpdatedAt || drafts[id].document != p.document { return DraftChanged; }
      var latest := FindLatest(id);
      if latest.Some? && latest.value.hash == p.hash && latest.value.document == p.document { return Published(latest.value); }
      if IdOf(latest) != p.expectedPrevious { return PublicationChanged; }
      var number := (if latest.Some? then latest.value.number else 0) + 1;
      if number > I32_MAX || IdTaken(revisions, p.revisionId) || |p.hash| != HASH_LENGTH { return Failed; }
      var row := Revision(p.revisionId, id, number, p.document, p.hash, p.compatibility);
      LatestIsLargest(revisions, id);
      assert (revisions + [row])[..|revisions|] == revisions;
      revisions := revisions + [row];
      blueprints := blueprints[id := blueprints[id].(updatedAt := p.now)];
      return Published(row);
    }
  }
}
