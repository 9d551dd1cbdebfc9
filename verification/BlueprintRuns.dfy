/** Every run of creating blueprints, replacing drafts and publishing them. */
module BlueprintRuns {
  import opened Wrappers
  import opened Blueprints

  datatype Op =
    | Make(tenant: string, id: string, key: string, draftId: string, document: string, now: int)
    | Replace(tenant: string, id: string, key: string, document: string, now: int)
    | Submit(tenant: string, id: string, publication: Publication)

  /** `against` remembers, for each revision, the predecessor its publication expected. */
  datatype World = World(db: Db, against: map<string, Option<string>>)

  const EMPTY := World(Db(map[], map[], []), map[])

  function Apply(w: World, op: Op): World {
    match op
    case Make(tenant, id, key, draftId, document, now) => w.(db := Create(w.db, tenant, id, key, draftId, document, now).0)
    case Replace(tenant, id, key, document, now) => w.(db := ReplaceDraft(w.db, tenant, id, key, document, now).0)
    case Submit(tenant, id, p) =>
      var after := Publish(w.db, tenant, id, p).0;
      World(after, if |after.revisions| > |w.db.revisions| then w.against[p.revisionId := p.expectedPrevious] else w.against)
  }

  function Run(w: World, ops: seq<Op>): World
    decreases |ops|
  {
    if ops == [] then w else Apply(Run(w, ops[..|ops| - 1]), ops[|ops| - 1])
  }

  /** The revisions of one blueprint in the order of publication. */
  function Chain(rows: seq<Revision>, blueprint: string): seq<Revision> {
    if rows == [] then []
    else
      var chain := Chain(rows[..|rows| - 1], blueprint);
      if rows[|rows| - 1].blueprint == blueprint then chain + [rows[|rows| - 1]] else chain
  }

  lemma ChainAppend(rows: seq<Revision>, row: Revision, blueprint: string)
    ensures Chain(rows + [row], blueprint) == if row.blueprint == blueprint then Chain(rows, blueprint) + [row] else Chain(rows, blueprint)
    ensures Latest(rows + [row], blueprint)
            == if row.blueprint == blueprint && (Latest(rows, blueprint).None? || row.number > Latest(rows, blueprint).value.number)
               then Some(row) else Latest(rows, blueprint)
  {
  }

  // ---- invariants ----

  predicate Numbered(chain: seq<Revision>) { forall i :: 0 <= i < |chain| ==> chain[i].number == i + 1 }

  predicate NeighboursDiffer(chain: seq<Revision>) {
    forall i :: 0 < i < |chain| ==> chain[i - 1].hash != chain[i].hash || chain[i - 1].document != chain[i].document
  }

  function Predecessor(chain: seq<Revision>, i: nat): Option<string>
    requires i < |chain|
  {
    if i == 0 then None else Some(chain[i - 1].id)
  }

  predicate Linked(chain: seq<Revision>, against: map<string, Option<string>>) {
    forall i :: 0 <= i < |chain| ==> chain[i].id in against && against[chain[i].id] == Predecessor(chain, i)
  }

  function Last(chain: seq<Revision>): Option<Revision> { if chain == [] then None else Some(chain[|chain| - 1]) }

  predicate ChainOk(w: World, blueprint: string) {
    var chain := Chain(w.db.revisions, blueprint);
    && Numbered(chain)
    && NeighboursDiffer(chain)
    && Linked(chain, w.against)
    && Latest(w.db.revisions, blueprint) == Last(chain)
    && (forall i :: 0 <= i < |chain| ==> chain[i] in w.db.revisions)
  }

  predicate IdsUnique(rows: seq<Revision>) { forall i, j :: 0 <= i < j < |rows| ==> rows[i].id != rows[j].id }

  ghost predicate Inv(w: World) { IdsUnique(w.db.revisions) && forall b :: ChainOk(w, b) }

  /** What a publication that writes found. */
  predicate Writes(db: Db, id: string, p: Publication) {
    && id in db.drafts && DraftIsAsRead(db, id, p)
    && (Latest(db.revisions, id).Some? ==> !SameContent(Latest(db.revisions, id).value, p))
    && IdOf(Latest(db.revisions, id)) == p.expectedPrevious
    && !IdTaken(db.revisions, p.revisionId)
  }

  lemma PublishWrites(db: Db, tenant: string, id: string, p: Publication)
    ensures var (after, outcome) := Publish(db, tenant, id, p);
            && (after.revisions == db.revisions
                || (Writes(db, id, p) && after.revisions == db.revisions + [NewRevision(db, id, p)]
                    && outcome == Published(NewRevision(db, id, p))))
            && after.drafts == db.drafts
            && after.blueprints.Keys == db.blueprints.Keys
            && (after.revisions == db.revisions ==> after == db)
  {
  }

  lemma ExtendOther(w: World, after: World, row: Revision, b: string)
    requires ChainOk(w, b) && b != row.blueprint
    requires after.db.revisions == w.db.revisions + [row]
    requires !IdTaken(w.db.revisions, row.id)
    requires forall k :: k in w.against && k != row.id ==> k in after.against && after.against[k] == w.against[k]
    ensures ChainOk(after, b)
  {
  }

  lemma ExtendOwn(w: World, after: World, row: Revision)
    requires ChainOk(w, row.blueprint)
    requires after.db.revisions == w.db.revisions + [row]
    requires !IdTaken(w.db.revisions, row.id)
    requires row.number == MaxNumber(w.db.revisions, row.blueprint) + 1
    requires Latest(w.db.revisions, row.blueprint).Some?
             ==> Latest(w.db.revisions, row.blueprint).value.hash != row.hash || Latest(w.db.revisions, row.blueprint).value.document != row.document
    requires row.id in after.against && after.against[row.id] == IdOf(Latest(w.db.revisions, row.blueprint))
    requires forall k :: k in w.against && k != row.id ==> k in after.against && after.against[k] == w.against[k]
    ensures ChainOk(after, row.blueprint)
  {
    var b := row.blueprint;
    ChainAppend(w.db.revisions, row, b);
    var chain := Chain(w.db.revisions, b);
    var longer := chain + [row];
    assert Chain(after.db.revisions, b) == longer;
    forall i | 0 <= i < |longer| ensures longer[i].id in after.against && after.against[longer[i].id] == Predecessor(longer, i) {
      if i < |chain| {
        var k :| 0 <= k < |w.db.revisions| && w.db.revisions[k] == chain[i];
        assert chain[i].id != row.id;
        assert longer[i] == chain[i] && Predecessor(longer, i) == Predecessor(chain, i);
      }
    }
  }

  lemma SubmitInv(w: World, tenant: string, id: string, p: Publication)
    requires Inv(w)
    ensures Inv(Apply(w, Submit(tenant, id, p)))
  {
    PublishWrites(w.db, tenant, id, p);
    var after := Apply(w, Submit(tenant, id, p));
    if after.db.revisions != w.db.revisions {
      var row := NewRevision(w.db, id, p);
      forall b ensures ChainOk(after, b) {
        assert ChainOk(w, b);
        if b == id { ExtendOwn(w, after, row); } else { ExtendOther(w, after, row, b); }
      }
    }
  }

  lemma InvStep(w: World, op: Op)
    requires Inv(w)
    ensures Inv(Apply(w, op))
  {
    if op.Submit? {
      SubmitInv(w, op.tenant, op.id, op.publication);
    } else {
      assert Apply(w, op).db.revisions == w.db.revisions;
      forall b ensures ChainOk(Apply(w, op), b) { assert ChainOk(w, b); }
    }
  }

  lemma {:induction false} InvRun(w: World, ops: seq<Op>)
    requires Inv(w)
    ensures Inv(Run(w, ops))
    decreases |ops|
  {
    if ops != [] {
      InvRun(w, ops[..|ops| - 1]);
      InvStep(Run(w, ops[..|ops| - 1]), ops[|ops| - 1]);
    }
  }

  // ---- results ----

  /**
   * In every run the revisions of a blueprint are numbered from one without gaps, each was published
   * against its immediate predecessor, and neighbours differ in hash or document.
   */
  lemma RevisionsFormAChain(ops: seq<Op>, blueprint: string)
    ensures var w := Run(EMPTY, ops);
            var chain := Chain(w.db.revisions, blueprint);
            Numbered(chain) && Linked(chain, w.against) && NeighboursDiffer(chain)
  {
    InvRun(EMPTY, ops);
    assert ChainOk(Run(EMPTY, ops), blueprint);
  }

  lemma StepAppends(w: World, op: Op)
    ensures w.db.revisions <= Apply(w, op).db.revisions
  {
  }

  /** No step changes or removes a revision. */
  lemma {:induction false} RevisionsAreImmutable(w: World, ops: seq<Op>)
    ensures w.db.revisions <= Run(w, ops).db.revisions
    decreases |ops|
  {
    if ops != [] {
      RevisionsAreImmutable(w, ops[..|ops| - 1]);
      StepAppends(Run(w, ops[..|ops| - 1]), ops[|ops| - 1]);
    }
  }

  /** The request the application builds from the draft and, read later, the latest revision. */
  function Prepare(draft: Draft, latest: Option<Revision>, revisionId: string, hash: string -> string,
                   compare: (Option<string>, string) -> string, now: int): Publication
  {
    var previous := match latest case Some(r) => Some(r.document) case None => None;
    Publication(revisionId, IdOf(latest), draft.updatedAt, draft.document, hash(draft.document), compare(previous, draft.document), now)
  }

  /** A row is determined by its id, now and later. */
  lemma SameIdSameRow(earlier: seq<Revision>, later: seq<Revision>, a: Revision, b: Revision)
    requires earlier <= later && IdsUnique(later)
    requires a in earlier && b in later && a.id == b.id
    ensures a == b
  {
  }

  /**
   * The draft and then the latest revision are read without locks; any steps may run between the two
   * reads and before the write. A publication that then writes stores the draft as it is at that moment,
   * and a comparison with the revision that really is its predecessor.
   */
  lemma WrittenRevisionsAreUpToDate(w: World, between: seq<Op>, ops: seq<Op>, tenant: string, id: string, revisionId: string,
                                    hash: string -> string, compare: (Option<string>, string) -> string, now: int)
    requires Inv(w) && id in w.db.drafts
    ensures var read := Run(w, between);
            var p := Prepare(w.db.drafts[id], Latest(read.db.revisions, id), revisionId, hash, compare, now);
            var later := Run(read, ops).db;
            var (after, outcome) := Publish(later, tenant, id, p);
            after.revisions != later.revisions ==>
              && outcome.Published? && after.revisions == later.revisions + [outcome.revision]
              && id in later.drafts
              && outcome.revision.document == later.drafts[id].document
              && outcome.revision.hash == hash(later.drafts[id].document)
              && Latest(later.revisions, id) == Latest(read.db.revisions, id)
              && outcome.revision.compatibility
                 == compare(match Latest(later.revisions, id) case Some(r) => Some(r.document) case None => None, later.drafts[id].document)
  {
    var read := Run(w, between);
    var p := Prepare(w.db.drafts[id], Latest(read.db.revisions, id), revisionId, hash, compare, now);
    var later := Run(read, ops).db;
    PublishWrites(later, tenant, id, p);
    InvRun(w, between);
    InvRun(read, ops);
    RevisionsAreImmutable(read, ops);
    LatestIsLargest(read.db.revisions, id);
    LatestIsLargest(later.revisions, id);
    if Publish(later, tenant, id, p).0.revisions != later.revisions && Latest(read.db.revisions, id).Some? {
      SameIdSameRow(read.db.revisions, later.revisions, Latest(read.db.revisions, id).value, Latest(later.revisions, id).value);
    }
  }

  /** A request that expects something other than the latest revision: nothing, or an older one. */
  ghost predicate Outdated(w: World, id: string, expected: Option<string>) {
    var chain := Chain(w.db.revisions, id);
    chain != [] && (expected.Some? ==> exists i :: 0 <= i < |chain| - 1 && chain[i].id == expected.value)
  }

  lemma ChainGrows(w: World, op: Op, id: string)
    ensures Chain(w.db.revisions, id) <= Chain(Apply(w, op).db.revisions, id)
  {
  }

  lemma {:induction false} OutdatedForever(w: World, ops: seq<Op>, id: string, expected: Option<string>)
    requires Outdated(w, id, expected)
    ensures Outdated(Run(w, ops), id, expected)
    decreases |ops|
  {
    if ops != [] {
      var before := Run(w, ops[..|ops| - 1]);
      OutdatedForever(w, ops[..|ops| - 1], id, expected);
      ChainGrows(before, ops[|ops| - 1], id);
      var chain := Chain(before.db.revisions, id);
      var longer := Chain(Run(w, ops).db.revisions, id);
      if expected.Some? {
        var i :| 0 <= i < |chain| - 1 && chain[i].id == expected.value;
        assert longer[i] == chain[i];
      }
    }
  }

  lemma OutdatedIsNotLatest(w: World, id: string, expected: Option<string>)
    requires Inv(w) && Outdated(w, id, expected)
    ensures IdOf(Latest(w.db.revisions, id)) != expected
  {
    assert ChainOk(w, id);
    var chain := Chain(w.db.revisions, id);
    if expected.Some? {
      var i :| 0 <= i < |chain| - 1 && chain[i].id == expected.value;
      assert w.against[chain[i].id] == Predecessor(chain, i) && w.against[chain[|chain| - 1].id] == Predecessor(chain, |chain| - 1);
      ChainIdsDiffer(w, id, i, |chain| - 1);
    }
  }

  /** Revisions of a chain have different ids: the rows are distinct and ids are keys. */
  lemma ChainIdsDiffer(w: World, id: string, i: nat, j: nat)
    requires Inv(w) && i < j < |Chain(w.db.revisions, id)|
    ensures Chain(w.db.revisions, id)[i].id != Chain(w.db.revisions, id)[j].id
  {
    assert ChainOk(w, id);
    var chain := Chain(w.db.revisions, id);
    var x :| 0 <= x < |w.db.revisions| && w.db.revisions[x] == chain[i];
    var y :| 0 <= y < |w.db.revisions| && w.db.revisions[y] == chain[j];
    assert chain[i].number != chain[j].number;
    assert x != y;
  }

  /** A publisher overtaken by another publication of the blueprint never writes, however long it waits. */
  lemma OvertakenPublisherNeverWrites(w: World, ops: seq<Op>, tenant: string, id: string, p: Publication)
    requires Inv(w) && Outdated(w, id, p.expectedPrevious)
    ensures Publish(Run(w, ops).db, tenant, id, p).0 == Run(w, ops).db
  {
    OutdatedForever(w, ops, id, p.expectedPrevious);
    InvRun(w, ops);
    OutdatedIsNotLatest(Run(w, ops), id, p.expectedPrevious);
    PublishWrites(Run(w, ops).db, tenant, id, p);
  }

  /** A successful publication leaves its revision the latest one and the draft as it was. */
  lemma PublishedIsLatest(w: World, tenant: string, id: string, p: Publication)
    requires Publish(w.db, tenant, id, p).1.Published?
    ensures var (after, outcome) := Publish(w.db, tenant, id, p);
            && Latest(after.revisions, id) == Some(outcome.revision)
            && SameContent(outcome.revision, p)
            && Exists(after, tenant, id) && DraftIsAsRead(after, id, p)
  {
  }

  lemma {:induction false} BlueprintsStay(w: World, ops: seq<Op>, tenant: string, id: string)
    requires Exists(w.db, tenant, id)
    ensures Exists(Run(w, ops).db, tenant, id)
    decreases |ops|
  {
    if ops != [] { BlueprintsStay(w, ops[..|ops| - 1], tenant, id); }
  }

  /**
   * A retry with the same content, after any steps that left the draft and the latest revision as they
   * were, returns the revision of the first attempt and writes nothing.
   */
  lemma RetryReturnsTheSameRevision(w: World, tenant: string, id: string, p: Publication, ops: seq<Op>, retry: Publication)
    requires Publish(w.db, tenant, id, p).1.Published?
    requires retry.document == p.document && retry.hash == p.hash && retry.expectedUpdatedAt == p.expectedUpdatedAt
    requires var published := Apply(w, Submit(tenant, id, p));
             var later := Run(published, ops).db;
             && id in later.drafts && later.drafts[id] == published.db.drafts[id]
             && Latest(later.revisions, id) == Latest(published.db.revisions, id)
    ensures var later := Run(Apply(w, Submit(tenant, id, p)), ops).db;
            Publish(later, tenant, id, retry) == (later, Publish(w.db, tenant, id, p).1)
  {
    PublishedIsLatest(w, tenant, id, p);
    BlueprintsStay(Apply(w, Submit(tenant, id, p)), ops, tenant, id);
  }
}
