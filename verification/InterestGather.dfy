/**
 Gathering for one connection (engine/net/src/interest/gather.rs): candidates come only
 from the reverse lists, yet the result is the one a scan of the whole world gives.
 */
module InterestGather {
  import opened NetTypes
  import opened Sums
  import opened ReverseIndex
  import opened InterestModel
  import opened InterestGrid
  import opened InterestWorld

  datatype GatherError =
    | UnknownConnection
    | StalePolicy
    | CandidateLimit
    | CandidateVisitLimit
    | PreviousEligibilityLimit

  datatype Entry = Entry(
    entity: EntityId, representation: Grant, reasons: Reasons, stateVersion: nat, scene: SceneRevision)

  function EntryFor(e: Registration, grant: Grant, reasons: Reasons): Entry {
    Entry(e.id, grant, reasons, e.stateVersion, e.scene)
  }

  // ---- the reference: look at every registration ---------------------------------

  function ScanReasons(limits: Limits, connection: ConnectionId, view: ConnectionView, e: Registration, previous: bool)
    : Reasons
  {
    NO_REASON.(
      global := e.routes.global,
      owner := e.routes.owner == Some(connection),
      semantic := e.routes.semantic * view.semanticGrants != {},
      spatial := e.routes.spatial.Some? && SpatiallyEligible(limits, e, view, previous))
  }

  /** Every permitted entity with some reason, no index involved. */
  ghost function FullScan(
    limits: Limits, entities: Entities, connection: ConnectionId, view: ConnectionView, previous: set<EntityId>,
    policy: Policy): map<EntityId, Entry>
  {
    map id |
      && id in entities
      && Permitted(connection, view, entities[id], policy).Some?
      && !ScanReasons(limits, connection, view, entities[id], id in previous).IsEmpty()
      :: EntryFor(
           entities[id],
           Permitted(connection, view, entities[id], policy).value,
           ScanReasons(limits, connection, view, entities[id], id in previous))
  }

  // ---- candidate lists ------------------------------------------------------------

  /** The reverse lists consulted so far. */
  datatype Stage = Stage(global: bool, owner: Option<ConnectionId>, semantics: set<SemanticId>, cells: seq<Cell>)

  function ListedReasons(routes: Routes, footprint: set<Cell>, stage: Stage): Reasons {
    NO_REASON.(
      global := stage.global && routes.global,
      owner := stage.owner.Some? && routes.owner == stage.owner,
      semantic := routes.semantic * stage.semantics != {},
      spatial := exists i :: 0 <= i < |stage.cells| && stage.cells[i] in footprint)
  }

  ghost function StageReasons(w: World, stage: Stage, id: EntityId): Reasons
    requires id in w.entities && id in w.footprints
  {
    ListedReasons(w.entities[id].routes, w.footprints[id], stage)
  }

  /** Whom the lists of a stage name. */
  ghost function CandidateIds(w: World, stage: Stage): set<EntityId>
    requires w.footprints.Keys == w.entities.Keys
  {
    set id | id in w.entities && !StageReasons(w, stage, id).IsEmpty()
  }

  /** The candidate map holds exactly the entities the lists of a stage name, and why. */
  ghost predicate Names(candidates: map<EntityId, Reasons>, w: World, stage: Stage)
    requires w.footprints.Keys == w.entities.Keys
  {
    && (forall id :: id in candidates <==> id in w.entities && !StageReasons(w, stage, id).IsEmpty())
    && (forall id :: id in candidates ==> candidates[id] == StageReasons(w, stage, id))
  }

  ghost function SemanticVisits(w: World, semantics: set<SemanticId>): map<SemanticId, nat> {
    map s | s in semantics :: |Listed(w.routes.semantics, s)|
  }

  ghost function CellVisits(w: World, cells: seq<Cell>): nat {
    if cells == [] then 0 else CellVisits(w, cells[..|cells| - 1]) + |Listed(w.cells, cells[|cells| - 1])|
  }

  /** The work of reading the lists of a stage, one visit per listed member. */
  ghost function Visits(w: World, stage: Stage): nat {
    (if stage.global then |w.routes.globals| else 0)
    + (if stage.owner.Some? then |Listed(w.routes.owners, stage.owner.value)| else 0)
    + Total(SemanticVisits(w, stage.semantics))
    + CellVisits(w, stage.cells)
  }

  function ObserverCells(limits: Limits, view: ConnectionView): seq<Cell>
    requires limits.cellSize > 0.0
  {
    seq(|view.observers|, i requires 0 <= i < |view.observers| =>
      CellAt(limits, view.observers[i].position.x, view.observers[i].position.z))
  }

  function FullStage(limits: Limits, connection: ConnectionId, view: ConnectionView): Stage
    requires limits.cellSize > 0.0
  {
    Stage(true, Some(connection), view.semanticGrants, ObserverCells(limits, view))
  }

  function ReasonsOf(candidates: map<EntityId, Reasons>, id: EntityId): Reasons {
    if id in candidates then candidates[id] else NO_REASON
  }

  /** `after` is `candidates` with one list added under `reason`. */
  ghost predicate Offered(
    candidates: map<EntityId, Reasons>, ids: set<EntityId>, reason: Reasons, after: map<EntityId, Reasons>)
  {
    && (forall id :: id in after <==> id in candidates || id in ids)
    && (forall id :: id in after ==>
          after[id] == ReasonsOf(candidates, id).Insert(if id in ids then reason else NO_REASON))
  }

  lemma OfferOne(
    candidates: map<EntityId, Reasons>, ids: set<EntityId>, rest: set<EntityId>, reason: Reasons,
    now: map<EntityId, Reasons>, id: EntityId)
    requires id in rest && rest <= ids && Offered(candidates, ids - rest, reason, now)
    ensures Offered(candidates, ids - (rest - {id}), reason, now[id := ReasonsOf(now, id).Insert(reason)])
    ensures now.Keys <= candidates.Keys + ids
  {
  }

  lemma UpdateSize<K, V>(m: map<K, V>, k: K, v: V)
    ensures |m[k := v]| == |m| + (if k in m then 0 else 1)
  {
    assert m[k := v].Keys == m.Keys + {k};
  }

  /** The `add` closure: one visit, refused at either ceiling. */
  method Add(limits: Limits, candidates: map<EntityId, Reasons>, visits: nat, id: EntityId, reason: Reasons)
    returns (error: Option<GatherError>, candidates': map<EntityId, Reasons>, visits': nat)
    requires |candidates| <= limits.maxCandidates && visits <= limits.maxCandidateVisits
    ensures error.None? ==>
      candidates' == candidates[id := ReasonsOf(candidates, id).Insert(reason)] && visits' == visits + 1
    ensures error.None? ==> |candidates'| <= limits.maxCandidates && visits' <= limits.maxCandidateVisits
    ensures error.Some? ==> error.value in {CandidateVisitLimit, CandidateLimit}
    ensures error == Some(CandidateVisitLimit) ==> visits == limits.maxCandidateVisits
    ensures error == Some(CandidateLimit) ==> id !in candidates && |candidates| == limits.maxCandidates
  {
    UpdateSize(candidates, id, ReasonsOf(candidates, id).Insert(reason));
    candidates', visits' := candidates, visits;
    if visits >= limits.maxCandidateVisits {
      return Some(CandidateVisitLimit), candidates', visits';
    }
    visits' := visits + 1;
    if id !in candidates && |candidates| >= limits.maxCandidates {
      return Some(CandidateLimit), candidates', visits';
    }
    candidates' := candidates[id := ReasonsOf(candidates, id).Insert(reason)];
    error := None;
  }

  ghost predicate Fits(limits: Limits, candidates: map<EntityId, Reasons>, visits: nat, ids: set<EntityId>) {
    visits + |ids| <= limits.maxCandidateVisits && |candidates.Keys + ids| <= limits.maxCandidates
  }

  /** Reads one whole list, in any order. */
  method Offer(limits: Limits, candidates: map<EntityId, Reasons>, visits: nat, ids: set<EntityId>, reason: Reasons)
    returns (error: Option<GatherError>, candidates': map<EntityId, Reasons>, visits': nat)
    requires |candidates| <= limits.maxCandidates && visits <= limits.maxCandidateVisits
    ensures error.None? <==> Fits(limits, candidates, visits, ids)
    ensures error.None? ==> Offered(candidates, ids, reason, candidates') && visits' == visits + |ids|
    ensures error.None? ==> |candidates'| <= limits.maxCandidates && visits' <= limits.maxCandidateVisits
    ensures error == Some(CandidateVisitLimit) ==> visits + |ids| > limits.maxCandidateVisits
    ensures error == Some(CandidateLimit) ==> |candidates.Keys + ids| > limits.maxCandidates
    ensures error.Some? ==> error.value in {CandidateVisitLimit, CandidateLimit}
  {
    candidates', visits', error := candidates, visits, None;
    var rest := ids;
    while rest != {}
      invariant error.None? && rest <= ids
      invariant Offered(candidates, ids - rest, reason, candidates')
      invariant visits' + |rest| == visits + |ids|
      invariant visits' <= limits.maxCandidateVisits && |candidates'| <= limits.maxCandidates
      decreases |rest|
    {
      var id :| id in rest;
      OfferOne(candidates, ids, rest, reason, candidates', id);
      ghost var before, seen := candidates', visits';
      error, candidates', visits' := Add(limits, candidates', visits', id, reason);
      if error.Some? {
        Refused(limits, candidates, visits, ids, before, seen, rest, id, error.value);
        return;
      }
      rest := rest - {id};
    }
    OfferAll(candidates, ids, rest, reason, candidates');
  }

  lemma OfferAll(
    candidates: map<EntityId, Reasons>, ids: set<EntityId>, rest: set<EntityId>, reason: Reasons,
    after: map<EntityId, Reasons>)
    requires rest == {} && Offered(candidates, ids - rest, reason, after)
    ensures Offered(candidates, ids, reason, after) && |after| == |candidates.Keys + ids|
  {
    assert ids - rest == ids;
    assert after.Keys == candidates.Keys + ids;
  }

  lemma Refused(
    limits: Limits, candidates: map<EntityId, Reasons>, visits: nat, ids: set<EntityId>, now: map<EntityId, Reasons>,
    seen: nat, rest: set<EntityId>, id: EntityId, error: GatherError)
    requires id in rest && rest <= ids && error in {CandidateVisitLimit, CandidateLimit}
    requires seen + |rest| == visits + |ids| && now.Keys <= candidates.Keys + ids
    requires error == CandidateVisitLimit ==> seen == limits.maxCandidateVisits
    requires error == CandidateLimit ==> id !in now && |now| == limits.maxCandidates
    ensures !Fits(limits, candidates, visits, ids)
    ensures error == CandidateVisitLimit ==> visits + |ids| > limits.maxCandidateVisits
    ensures error == CandidateLimit ==> |candidates.Keys + ids| > limits.maxCandidates
  {
    if error == CandidateLimit {
      TooMany(now, candidates.Keys + ids, id);
    }
  }

  lemma TooMany(candidates: map<EntityId, Reasons>, all: set<EntityId>, id: EntityId)
    requires candidates.Keys <= all && id in all && id !in candidates
    ensures |all| > |candidates|
  {
    SubsetSize(candidates.Keys + {id}, all);
  }

  // ---- reading the lists one after another ----------------------------------------

  /** Reading `ids` under `reason` is what leads from one stage to the next. */
  ghost predicate AddsList(w: World, stage: Stage, next: Stage, ids: set<EntityId>, reason: Reasons)
    requires w.footprints.Keys == w.entities.Keys
  {
    && ids <= w.entities.Keys
    && !reason.IsEmpty()
    && (forall id :: id in w.entities ==>
          StageReasons(w, next, id) == StageReasons(w, stage, id).Insert(if id in ids then reason else NO_REASON))
    && Visits(w, next) == Visits(w, stage) + |ids|
  }

  lemma NamesNext(
    w: World, stage: Stage, next: Stage, ids: set<EntityId>, reason: Reasons,
    candidates: map<EntityId, Reasons>, after: map<EntityId, Reasons>)
    requires w.footprints.Keys == w.entities.Keys && AddsList(w, stage, next, ids, reason)
    requires Names(candidates, w, stage) && Offered(candidates, ids, reason, after)
    ensures Names(after, w, next)
  {
    forall id | id in w.entities ensures id in after <==> !StageReasons(w, next, id).IsEmpty() {
      assert StageReasons(w, next, id) == StageReasons(w, stage, id).Insert(if id in ids then reason else NO_REASON);
    }
  }

  lemma NextIds(
    w: World, stage: Stage, next: Stage, ids: set<EntityId>, reason: Reasons, candidates: map<EntityId, Reasons>)
    requires w.footprints.Keys == w.entities.Keys && AddsList(w, stage, next, ids, reason)
    requires Names(candidates, w, stage)
    ensures candidates.Keys + ids == CandidateIds(w, next)
  {
    forall id ensures id in candidates.Keys + ids <==> id in CandidateIds(w, next) {
      if id in w.entities {
        assert StageReasons(w, next, id) == StageReasons(w, stage, id).Insert(if id in ids then reason else NO_REASON);
      }
    }
  }

  /** Every list of `a` is among the lists of `b`. */
  ghost predicate Below(a: Stage, b: Stage) {
    && (a.global ==> b.global)
    && (a.owner.Some? ==> a.owner == b.owner)
    && a.semantics <= b.semantics
    && a.cells <= b.cells
  }

  lemma {:induction false} CellVisitsPrefix(w: World, a: seq<Cell>, b: seq<Cell>)
    requires a <= b
    ensures CellVisits(w, a) <= CellVisits(w, b)
    decreases |b|
  {
    if a != b {
      CellVisitsPrefix(w, a, b[..|b| - 1]);
    }
  }

  lemma VisitsBelow(w: World, a: Stage, b: Stage)
    requires Below(a, b)
    ensures Visits(w, a) <= Visits(w, b)
  {
    CellVisitsPrefix(w, a.cells, b.cells);
    TotalSubmap(SemanticVisits(w, a.semantics), SemanticVisits(w, b.semantics));
  }

  lemma ReasonsBelow(routes: Routes, footprint: set<Cell>, a: Stage, b: Stage)
    requires Below(a, b) && !ListedReasons(routes, footprint, a).IsEmpty()
    ensures !ListedReasons(routes, footprint, b).IsEmpty()
  {
    if ListedReasons(routes, footprint, a).semantic {
      var s :| s in routes.semantic * a.semantics;
      assert s in routes.semantic * b.semantics;
    }
    if ListedReasons(routes, footprint, a).spatial {
      var i :| 0 <= i < |a.cells| && a.cells[i] in footprint;
      assert b.cells[i] == a.cells[i];
    }
  }

  lemma IdsBelow(w: World, a: Stage, b: Stage)
    requires w.footprints.Keys == w.entities.Keys && Below(a, b)
    ensures |CandidateIds(w, a)| <= |CandidateIds(w, b)|
  {
    forall id | id in CandidateIds(w, a) ensures id in CandidateIds(w, b) {
      ReasonsBelow(w.entities[id].routes, w.footprints[id], a, b);
    }
    SubsetSize(CandidateIds(w, a), CandidateIds(w, b));
  }

  /** The reported ceiling is really exceeded by the lists of this stage. */
  ghost predicate Overflows(limits: Limits, w: World, stage: Stage, error: GatherError)
    requires w.footprints.Keys == w.entities.Keys
  {
    || (error == CandidateVisitLimit && Visits(w, stage) > limits.maxCandidateVisits)
    || (error == CandidateLimit && |CandidateIds(w, stage)| > limits.maxCandidates)
  }

  /** The candidates and the visit count are those of the lists read so far, within both ceilings. */
  ghost predicate HasRead(limits: Limits, w: World, stage: Stage, candidates: map<EntityId, Reasons>, visits: nat)
    requires w.footprints.Keys == w.entities.Keys
  {
    && Names(candidates, w, stage) && visits == Visits(w, stage)
    && |candidates| <= limits.maxCandidates && visits <= limits.maxCandidateVisits
  }

  method ReadList(
    limits: Limits, w: World, ghost stage: Stage, ghost next: Stage, ghost full: Stage,
    ids: set<EntityId>, reason: Reasons,
    candidates: map<EntityId, Reasons>, visits: nat)
    returns (error: Option<GatherError>, candidates': map<EntityId, Reasons>, visits': nat)
    requires w.footprints.Keys == w.entities.Keys && AddsList(w, stage, next, ids, reason) && Below(next, full)
    requires HasRead(limits, w, stage, candidates, visits)
    ensures error.Some? ==> Overflows(limits, w, full, error.value)
    ensures error.None? ==> HasRead(limits, w, next, candidates', visits')
  {
    error, candidates', visits' := Offer(limits, candidates, visits, ids, reason);
    if error.None? {
      NamesNext(w, stage, next, ids, reason, candidates, candidates');
    } else {
      ReadOverflows(limits, w, stage, next, full, ids, reason, candidates, error.value);
    }
  }

  /** A list that breaks a ceiling breaks it for all the lists that will be read. */
  lemma ReadOverflows(
    limits: Limits, w: World, stage: Stage, next: Stage, full: Stage, ids: set<EntityId>, reason: Reasons,
    candidates: map<EntityId, Reasons>, error: GatherError)
    requires w.footprints.Keys == w.entities.Keys && AddsList(w, stage, next, ids, reason) && Below(next, full)
    requires Names(candidates, w, stage)
    requires error == CandidateVisitLimit || error == CandidateLimit
    requires error == CandidateVisitLimit ==> Visits(w, stage) + |ids| > limits.maxCandidateVisits
    requires error == CandidateLimit ==> |candidates.Keys + ids| > limits.maxCandidates
    ensures Overflows(limits, w, full, error)
  {
    VisitsBelow(w, next, full);
    IdsBelow(w, next, full);
    NextIds(w, stage, next, ids, reason, candidates);
  }

  lemma GlobalsAdd(w: World, stage: Stage)
    requires w.footprints.Keys == w.entities.Keys && w.routes.globals == GlobalsOf(w.entities) && !stage.global
    ensures AddsList(w, stage, stage.(global := true), w.routes.globals, GLOBAL)
  {
  }

  lemma OwnersAdd(w: World, stage: Stage, connection: ConnectionId)
    requires w.footprints.Keys == w.entities.Keys && Mirrors(w.routes.owners, OwnersOf(w.entities)) && stage.owner.None?
    ensures AddsList(w, stage, stage.(owner := Some(connection)), Listed(w.routes.owners, connection), OWNER)
  {
    var next := stage.(owner := Some(connection));
    ListedIsHolders(w.routes.owners, OwnersOf(w.entities), connection);
    forall id | id in w.entities
      ensures StageReasons(w, next, id) ==
              StageReasons(w, stage, id).Insert(if id in Listed(w.routes.owners, connection) then OWNER else NO_REASON)
    {
      OwnerReasons(w.entities[id], w.footprints[id], stage, connection);
    }
  }

  lemma OwnerReasons(e: Registration, footprint: set<Cell>, stage: Stage, connection: ConnectionId)
    requires stage.owner.None?
    ensures ListedReasons(e.routes, footprint, stage.(owner := Some(connection))) ==
            ListedReasons(e.routes, footprint, stage).Insert(if connection in OwnerKeys(e) then OWNER else NO_REASON)
  {
  }

  lemma SemanticAdds(w: World, stage: Stage, s: SemanticId)
    requires w.footprints.Keys == w.entities.Keys && Mirrors(w.routes.semantics, SemanticsOf(w.entities))
    requires s !in stage.semantics
    ensures AddsList(w, stage, stage.(semantics := stage.semantics + {s}), Listed(w.routes.semantics, s), SEMANTIC)
  {
    var next := stage.(semantics := stage.semantics + {s});
    ListedIsHolders(w.routes.semantics, SemanticsOf(w.entities), s);
    forall id | id in w.entities
      ensures StageReasons(w, next, id) ==
              StageReasons(w, stage, id).Insert(if id in Listed(w.routes.semantics, s) then SEMANTIC else NO_REASON)
    {
      SemanticReasons(w.entities[id].routes, w.footprints[id], stage, s);
    }
    SemanticVisitsAdd(w, stage.semantics, s);
  }

  lemma SemanticReasons(routes: Routes, footprint: set<Cell>, stage: Stage, s: SemanticId)
    ensures ListedReasons(routes, footprint, stage.(semantics := stage.semantics + {s})) ==
            ListedReasons(routes, footprint, stage).Insert(if s in routes.semantic then SEMANTIC else NO_REASON)
  {
    var next := stage.(semantics := stage.semantics + {s});
    assert ListedReasons(routes, footprint, next).spatial == ListedReasons(routes, footprint, stage).spatial;
    assert routes.semantic * next.semantics
      == routes.semantic * stage.semantics + (if s in routes.semantic then {s} else {});
  }

  lemma SemanticVisitsAdd(w: World, semantics: set<SemanticId>, s: SemanticId)
    requires s !in semantics
    ensures Total(SemanticVisits(w, semantics + {s})) ==
            Total(SemanticVisits(w, semantics)) + |Listed(w.routes.semantics, s)|
  {
    assert SemanticVisits(w, semantics + {s}) == SemanticVisits(w, semantics)[s := |Listed(w.routes.semantics, s)|];
    TotalUpdate(SemanticVisits(w, semantics), s, |Listed(w.routes.semantics, s)|);
  }

  lemma CellAdds(w: World, stage: Stage, cell: Cell)
    requires w.footprints.Keys == w.entities.Keys && Mirrors(w.cells, w.footprints)
    ensures AddsList(w, stage, stage.(cells := stage.cells + [cell]), Listed(w.cells, cell), SPATIAL)
  {
    var next := stage.(cells := stage.cells + [cell]);
    ListedIsHolders(w.cells, w.footprints, cell);
    forall id | id in w.entities
      ensures StageReasons(w, next, id) ==
              StageReasons(w, stage, id).Insert(if id in Listed(w.cells, cell) then SPATIAL else NO_REASON)
    {
      CellReasons(w.entities[id].routes, w.footprints[id], stage, cell);
    }
    assert next.cells[..|next.cells| - 1] == stage.cells;
  }

  lemma CellReasons(routes: Routes, footprint: set<Cell>, stage: Stage, cell: Cell)
    ensures ListedReasons(routes, footprint, stage.(cells := stage.cells + [cell])) ==
            ListedReasons(routes, footprint, stage).Insert(if cell in footprint then SPATIAL else NO_REASON)
  {
    var next := stage.(cells := stage.cells + [cell]);
    assert next.cells[|stage.cells|] == cell;
    if ListedReasons(routes, footprint, stage).spatial {
      var i :| 0 <= i < |stage.cells| && stage.cells[i] in footprint;
      assert next.cells[i] in footprint;
    }
  }

  const NOTHING_READ := Stage(false, None, {}, [])

  /** Reads every list that can concern the connection, or reports the ceiling it breaks. */
  method CollectCandidates(limits: Limits, w: World, connection: ConnectionId, view: ConnectionView)
    returns (error: Option<GatherError>, candidates: map<EntityId, Reasons>, visits: nat)
    requires ValidLimits(limits) && Consistent(w)
    ensures error.Some? ==> Overflows(limits, w, FullStage(limits, connection, view), error.value)
    ensures error.None? ==> Names(candidates, w, FullStage(limits, connection, view))
    ensures error.None? ==> visits == Visits(w, FullStage(limits, connection, view)) <= limits.maxCandidateVisits
    ensures error.None? ==> |candidates| <= limits.maxCandidates
  {
    ghost var full := FullStage(limits, connection, view);
    ghost var stage := NOTHING_READ;
    candidates, visits := map[], 0;
    assert forall id :: id in w.entities ==> StageReasons(w, stage, id).IsEmpty();
    GlobalsAdd(w, stage);
    error, candidates, visits :=
      ReadList(limits, w, stage, stage.(global := true), full, w.routes.globals, GLOBAL, candidates, visits);
    if error.Some? {
      return;
    }
    stage := stage.(global := true);
    OwnersAdd(w, stage, connection);
    error, candidates, visits := ReadList(
      limits, w, stage, stage.(owner := Some(connection)), full, Listed(w.routes.owners, connection), OWNER,
      candidates, visits);
    if error.Some? {
      return;
    }
    stage := stage.(owner := Some(connection));
    error, candidates, visits := CollectSemantics(limits, w, stage, full, view.semanticGrants, candidates, visits);
    if error.Some? {
      return;
    }
    stage := stage.(semantics := view.semanticGrants);
    error, candidates, visits := CollectCells(limits, w, stage, full, ObserverCells(limits, view), candidates, visits);
  }

  method CollectSemantics(
    limits: Limits, w: World, ghost stage: Stage, ghost full: Stage, grants: set<SemanticId>,
    given: map<EntityId, Reasons>, seen: nat)
    returns (error: Option<GatherError>, candidates: map<EntityId, Reasons>, visits: nat)
    requires w.footprints.Keys == w.entities.Keys && Mirrors(w.routes.semantics, SemanticsOf(w.entities))
    requires stage.semantics == {} && Below(stage.(semantics := grants), full)
    requires HasRead(limits, w, stage, given, seen)
    ensures error.Some? ==> Overflows(limits, w, full, error.value)
    ensures error.None? ==> HasRead(limits, w, stage.(semantics := grants), candidates, visits)
  {
    error, candidates, visits := None, given, seen;
    var rest := grants;
    ghost var now := stage;
    while rest != {}
      invariant error.None? && rest <= grants && now == stage.(semantics := grants - rest)
      invariant HasRead(limits, w, now, candidates, visits)
      decreases |rest|
    {
      var s :| s in rest;
      ghost var next := GrantTurn(w, stage, full, grants, rest, s);
      error, candidates, visits :=
        ReadList(limits, w, now, next, full, Listed(w.routes.semantics, s), SEMANTIC, candidates, visits);
      if error.Some? {
        return;
      }
      rest, now := rest - {s}, next;
    }
    assert now.semantics == grants;
  }

  /** Reading one more granted list adds exactly that list. */
  lemma GrantTurn(w: World, stage: Stage, full: Stage, grants: set<SemanticId>, rest: set<SemanticId>, s: SemanticId)
    returns (next: Stage)
    requires w.footprints.Keys == w.entities.Keys && Mirrors(w.routes.semantics, SemanticsOf(w.entities))
    requires s in rest && rest <= grants && Below(stage.(semantics := grants), full)
    ensures next == stage.(semantics := grants - (rest - {s})) && Below(next, full)
    ensures AddsList(w, stage.(semantics := grants - rest), next, Listed(w.routes.semantics, s), SEMANTIC)
  {
    GrantStep(stage, full, grants, rest, s);
    SemanticAdds(w, stage.(semantics := grants - rest), s);
    next := stage.(semantics := grants - (rest - {s}));
  }

  lemma GrantStep(stage: Stage, full: Stage, grants: set<SemanticId>, rest: set<SemanticId>, s: SemanticId)
    requires s in rest && rest <= grants && Below(stage.(semantics := grants), full)
    ensures (grants - rest) + {s} == grants - (rest - {s}) && s !in grants - rest
    ensures Below(stage.(semantics := (grants - rest) + {s}), full)
  {
  }

  method CollectCells(
    limits: Limits, w: World, ghost stage: Stage, ghost full: Stage, cells: seq<Cell>,
    given: map<EntityId, Reasons>, seen: nat)
    returns (error: Option<GatherError>, candidates: map<EntityId, Reasons>, visits: nat)
    requires w.footprints.Keys == w.entities.Keys && Mirrors(w.cells, w.footprints)
    requires stage.cells == [] && full == stage.(cells := cells)
    requires HasRead(limits, w, stage, given, seen)
    ensures error.Some? ==> Overflows(limits, w, full, error.value)
    ensures error.None? ==> HasRead(limits, w, full, candidates, visits)
  {
    error, candidates, visits := None, given, seen;
    ghost var now := stage;
    for i := 0 to |cells|
      invariant error.None? && now == stage.(cells := cells[..i])
      invariant HasRead(limits, w, now, candidates, visits)
    {
      CellAdds(w, now, cells[i]);
      ghost var next := now.(cells := now.cells + [cells[i]]);
      assert next.cells == cells[..i + 1];
      error, candidates, visits :=
        ReadList(limits, w, now, next, full, Listed(w.cells, cells[i]), SPATIAL, candidates, visits);
      if error.Some? {
        return;
      }
      now := next;
    }
    assert now.cells == cells;
  }
}
