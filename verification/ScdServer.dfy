/** The strategic coordination handlers. Each runs one transaction on the repository; a handler that returns an
    error leaves the repository as it was. */
module ScdServer {
  import opened Common
  import opened Volumes
  import opened SubscriptionTimes
  import opened Subscribers
  import opened ScdModel
  import opened ScdRepository

  type Response = seq<SubscriberToNotify>

  /** The repository and the answer are those of `spec`. */
  ghost predicate Answers(r: Result<Response, Error>, after: Store, before: Store, spec: Result<Outcome, Error>) {
    match r
    case Ok(response) => spec.Ok? && after == spec.value.store && Names(response, spec.value.notified)
    case Err(e) => spec == Err(e) && after == before
  }

  /** The volume affected when `u` takes the place of `prior`. */
  method OldAndNewVolume(u: Box, prior: Box) returns (v: Box)
    ensures v == NotifiedBox(u, Some(prior))
  {
    var both := UnionVolumes4D([u.AsVolume(), prior.AsVolume()]);
    UnionOfBoxes(u, prior);
    var space := both.value.space.value;
    return Box(both.value.start, both.value.end, space.lo, space.hi, CellsOf(space));
  }

  class Server {
    const cfg: Config
    const repo: Repository

    constructor (cfg: Config, repo: Repository)
      ensures this.cfg == cfg && this.repo == repo
    {
      this.cfg, this.repo := cfg, repo;
    }

    // ----- operational intents -----

    method PutOperationalIntentReference(id: Id, manager: Manager, ovn: Ovn, params: IntentParams, env: Env)
      returns (r: Result<Response, Error>)
      modifies repo, repo.table
      ensures Answers(r, repo.State(), old(repo.State()),
                      PutIntent(old(repo.State()), cfg, id, manager, ovn, params, env))
    {
      if |params.baseUrl| == 0 {
        return Err(BadRequest);
      }
      if !cfg.enableHttp {
        if !cfg.validBaseUrl(params.baseUrl) {
          return Err(BadRequest);
        }
      }
      if !IsValidInDSS(params.state) {
        return Err(BadRequest);
      }
      var uExtent := UnionVolumes4D(params.extents);
      if uExtent.Err? {
        return Err(BadRequest);
      }
      if uExtent.value.start.None? {
        return Err(BadRequest);
      }
      if uExtent.value.end.None? {
        return Err(BadRequest);
      }
      if env.now > uExtent.value.end.value {
        return Err(BadRequest);
      }
      var box := BoxOf(uExtent.value);
      if box.Err? {
        return Err(BadRequest);
      }
      if uExtent.value.end.value < uExtent.value.start.value {
        return Err(BadRequest);
      }
      if ovn == "" && params.state != "Accepted" {
        return Err(BadRequest);
      }
      var before := repo.State();
      r := PutInTransaction(id, manager, ovn, params, box.value, env);
      if r.Err? {
        repo.Rollback(before);
      }
    }

    method PutInTransaction(id: Id, manager: Manager, ovn: Ovn, params: IntentParams, u: Box, env: Env)
      returns (r: Result<Response, Error>)
      requires CheckIntentParams(cfg, ovn, params, env.now) == Ok(u)
      modifies repo, repo.table
      ensures var spec := PutIntent(old(repo.State()), cfg, id, manager, ovn, params, env);
              if r.Ok? then spec.Ok? && repo.State() == spec.value.store && Names(r.value, spec.value.notified)
              else spec == Err(r.error)
    {
      hide AttachSubscription, CheckKey, WriteIntent, CheckIntentParams;
      var prior: Option<Intent> := None;
      if id in repo.intents {
        prior := Some(repo.intents[id]);
        if prior.value.manager != manager {
          return Err(PermissionDenied);
        }
        if prior.value.ovn != ovn {
          return Err(VersionMismatch);
        }
      } else {
        if ovn != "" {
          return Err(NotFound);
        }
      }
      var attached := Attach(manager, params, u, env);
      if attached.Err? {
        return Err(attached.error);
      }
      var subscriptionId := attached.value;
      if RequiresKey(params.state) {
        var checked := FindMissing(manager, params, u, repo.table.rows[subscriptionId].notifyForConstraints);
        if checked.Err? {
          return Err(checked.error);
        }
      }
      var response := Write(id, manager, prior, params, u, subscriptionId, env);
      return Ok(response);
    }

    method Write(
      id: Id, manager: Manager, prior: Option<Intent>, params: IntentParams, u: Box, subscriptionId: Id, env: Env)
      returns (response: Response)
      modifies repo, repo.table
      ensures var spec := WriteIntent(old(repo.State()), id, manager, prior, params, u, subscriptionId, env);
              repo.State() == spec.store && Names(response, spec.notified)
    {
      var version := if prior.None? then 0 else prior.value.version;
      var intent := Intent(manager, ToInt32(version + 1), params.state, env.intentOvn, params.baseUrl,
                           subscriptionId, u);
      var notifyVol4 := u;
      if prior.Some? {
        notifyVol4 := OldAndNewVolume(u, prior.value.box);
      }
      repo.intents := repo.intents[id := intent];
      ghost var told := Notify(repo.State(), notifyVol4, true);
      var rows := NotifyVolume(repo, notifyVol4, true);
      response := MakeSubscribersToNotify(rows, told.notified);
    }

    /** Creates an implicit subscription for an intent, or takes the one it names and stretches it if needed. */
    method Attach(manager: Manager, params: IntentParams, u: Box, env: Env) returns (r: Result<Id, Error>)
      requires u.start.Some? && u.end.Some?
      modifies repo.table
      ensures var spec := AttachSubscription(old(repo.table.rows), cfg, manager, params, u, env);
              if r.Ok? then spec == Ok(Attached(repo.table.rows, r.value)) else spec == Err(r.error)
    {
      if params.subscriptionId == "" {
        if params.newSubscriptionUrl == "" {
          return Err(BadRequest);
        }
        if !cfg.enableHttp {
          if !cfg.validBaseUrl(params.newSubscriptionUrl) {
            return Err(BadRequest);
          }
        }
        repo.table.rows := repo.table.rows[env.newId :=
          Subscription(env.subscriptionOvn, 0, manager, Range(u.start, u.end), params.newSubscriptionUrl,
                       true, params.newSubscriptionForConstraints, true, u.cells)];
        return Ok(env.newId);
      }
      if params.subscriptionId !in repo.table.rows {
        return Err(BadRequest);
      }
      var sub := repo.table.rows[params.subscriptionId];
      if sub.manager != manager {
        return Err(PermissionDenied);
      }
      var updateSub := false;
      if sub.range.start.Some? && sub.range.start.value > u.start.value {
        if !sub.implicit {
          return Err(BadRequest);
        }
        sub := sub.(range := sub.range.(start := u.start));
        updateSub := true;
      }
      if sub.range.end.Some? && sub.range.end.value < u.end.value {
        if !sub.implicit {
          return Err(BadRequest);
        }
        sub := sub.(range := sub.range.(end := u.end));
        updateSub := true;
      }
      if !(u.cells <= sub.area) {
        if !sub.implicit {
          return Err(BadRequest);
        }
        sub := sub.(area := sub.area + u.cells);
        updateSub := true;
      }
      if updateSub {
        repo.table.rows := repo.table.rows[params.subscriptionId := sub.(version := env.subscriptionOvn)];
      }
      return Ok(params.subscriptionId);
    }

    /** Compares the key with the OVNs of the intents, and on demand the constraints, in the volume. */
    method FindMissing(manager: Manager, params: IntentParams, u: Box, constraintsToo: bool)
      returns (r: Result<(), Error>)
      ensures r == CheckKey(repo.intents, repo.constraints, manager, params, u, constraintsToo)
    {
      var relevantOps := repo.SearchOperationalIntents(u);
      if relevantOps.Err? {
        return Err(relevantOps.error);
      }
      var missingOps := NotInKey(manager, params, relevantOps.value);
      assert missingOps == MissingIntents(repo.intents, manager, u, params.key);
      var missingConstraints: map<Id, Ovn> := map[];
      if constraintsToo {
        missingConstraints := FindMissingConstraints(manager, params, u);
      }
      if missingOps != map[] || missingConstraints != map[] {
        return Err(MissingOvns(missingOps, missingConstraints));
      }
      return Ok(());
    }

    method NotInKey(manager: Manager, params: IntentParams, relevantOps: seq<Id>) returns (missing: map<Id, Ovn>)
      requires forall id :: id in relevantOps ==> id in repo.intents
      ensures missing == map id | id in relevantOps && repo.intents[id].ovn !in params.key
                         :: Masked(repo.intents[id].manager, manager, repo.intents[id].ovn)
    {
      missing := map[];
      for i := 0 to |relevantOps|
        invariant missing.Keys == set id | id in relevantOps[..i] && repo.intents[id].ovn !in params.key
        invariant forall id :: id in missing ==>
                    missing[id] == Masked(repo.intents[id].manager, manager, repo.intents[id].ovn)
      {
        assert relevantOps[i] in relevantOps && relevantOps[..i + 1] == relevantOps[..i] + [relevantOps[i]];
        var relevantOp := repo.intents[relevantOps[i]];
        if relevantOp.ovn !in params.key {
          if relevantOp.manager != manager {
            relevantOp := relevantOp.(ovn := NO_OVN_PHRASE);
          }
          missing := missing[relevantOps[i] := relevantOp.ovn];
        }
      }
      assert relevantOps[..|relevantOps|] == relevantOps;
    }

    method FindMissingConstraints(manager: Manager, params: IntentParams, u: Box) returns (missing: map<Id, Ovn>)
      ensures missing == MissingConstraints(repo.constraints, manager, u, params.key)
    {
      var list := repo.SearchConstraints(u);
      assert forall id :: id in list ==> id in repo.constraints;
      missing := map[];
      for i := 0 to |list|
        invariant missing.Keys == set id | id in list[..i] && repo.constraints[id].ovn !in params.key
        invariant forall id :: id in missing ==>
                    missing[id] == Masked(repo.constraints[id].manager, manager, repo.constraints[id].ovn)
      {
        assert list[i] in list && list[..i + 1] == list[..i] + [list[i]];
        var relevantConstraint := repo.constraints[list[i]];
        if relevantConstraint.ovn !in params.key {
          if relevantConstraint.manager != manager {
            relevantConstraint := relevantConstraint.(ovn := NO_OVN_PHRASE);
          }
          missing := missing[list[i] := relevantConstraint.ovn];
        }
      }
      assert list[..|list|] == list;
    }

    method DeleteOperationalIntentReference(id: Id, manager: Manager) returns (r: Result<Response, Error>)
      modifies repo, repo.table
      ensures Answers(r, repo.State(), old(repo.State()), DeleteIntent(old(repo.State()), id, manager))
    {
      if id !in repo.intents {
        return Err(NotFound);
      }
      var prior := repo.intents[id];
      if prior.manager != manager {
        return Err(PermissionDenied);
      }
      if prior.subscriptionId !in repo.table.rows {
        return Err(SubscriptionMissing);
      }
      var removeImplicitSubscription := false;
      if repo.table.rows[prior.subscriptionId].implicit {
        var dependentOps := repo.GetDependentOperationalIntents(prior.subscriptionId);
        if |dependentOps| == 0 {
          return Err(NoDependents);
        } else if |dependentOps| == 1 {
          removeImplicitSubscription := true;
        }
      }
      ghost var told := Notify(repo.State(), prior.box, true);
      var rows := NotifyVolume(repo, prior.box, true);
      repo.intents := repo.intents - {id};
      if removeImplicitSubscription {
        repo.table.rows := repo.table.rows - {prior.subscriptionId};
      }
      var response := MakeSubscribersToNotify(rows, told.notified);
      return Ok(response);
    }

    // ----- subscriptions -----

    /** When several dependent intents are not covered, the order in which they are listed decides whether the
        answer is a rejection or a nil dereference. */
    method PutSubscriptionReference(id: Id, manager: Manager, version: Ovn, params: SubscriptionParams, env: Env)
      returns (r: Result<(), Error>)
      modifies repo, repo.table
      ensures var spec := PutSubscription(old(repo.State()), cfg, id, manager, version, params, env);
              match r
              case Ok(_) => spec == Ok(repo.State())
              case Err(e) =>
                && repo.State() == old(repo.State())
                && (spec == Err(e)
                    || (spec == Err(BadRequest) && SomeDependentFails(old(repo.State()), id, params, env.now, e)))
    {
      if !cfg.enableHttp {
        if !cfg.validBaseUrl(params.baseUrl) {
          return Err(BadRequest);
        }
      }
      var cells := RequestedCells(params.extents);
      if cells.Err? {
        return Err(cells.error);
      }
      var space := params.extents.space.value;
      if !params.notifyForIntents && !params.notifyForConstraints {
        return Err(BadRequest);
      }
      var before := repo.State();
      var times := new TimeRange(params.extents.start, params.extents.end);
      var prior := if id in repo.table.rows then Some(repo.table.rows[id].range) else None;
      var adjusted := times.AdjustTimeRange(env.now, prior);
      if adjusted.Err? {
        return Err(adjusted.error);
      }
      AdjustedIsBounded(env.now, Range(params.extents.start, params.extents.end), prior);
      var index := 0;
      if prior.None? {
        if version != "" {
          return Err(NotFound);
        }
      } else {
        var sub := repo.table.rows[id];
        if version == "" {
          return Err(AlreadyExists);
        } else if version != sub.version {
          return Err(VersionMismatch);
        } else if sub.manager != manager {
          return Err(PermissionDenied);
        }
        index := sub.index;
        var dependentOpIds := repo.GetDependentOperationalIntents(id);
        var covered := ValidateDependentOps(cells.value, space.lo, space.hi, times.Value(), dependentOpIds);
        if covered.Err? {
          return Err(covered.error);
        }
      }
      repo.table.rows := repo.table.rows[id :=
        Subscription(env.subscriptionOvn, index, manager, times.Value(), params.baseUrl,
                     params.notifyForIntents, params.notifyForConstraints, false, cells.value)];
      if params.notifyForConstraints {
        if params.extents.CalculateSpatialCovering().Err? {
          repo.Rollback(before);
          return Err(BadRequest);
        }
      }
      return Ok(());
    }

    method ValidateDependentOps(cells: set<Cell>, lo: Option<real>, hi: Option<real>, range: Range, opIds: seq<Id>)
      returns (r: Result<(), Error>)
      requires Bounded(range) && forall d :: d in opIds ==> d in repo.intents
      ensures r.Ok? <==>
                forall d :: d in opIds ==> ValidateDependentOp(cells, lo, hi, range, repo.intents[d].box).Ok?
      ensures r.Err? ==>
                exists d :: d in opIds && ValidateDependentOp(cells, lo, hi, range, repo.intents[d].box) == Err(r.error)
    {
      for i := 0 to |opIds|
        invariant forall k :: 0 <= k < i ==> ValidateDependentOp(cells, lo, hi, range, repo.intents[opIds[k]].box).Ok?
      {
        assert opIds[i] in opIds;
        var valid := ValidateDependentOp(cells, lo, hi, range, repo.intents[opIds[i]].box);
        if valid.Err? {
          return valid;
        }
      }
      return Ok(());
    }

    method DeleteSubscriptionReference(id: Id, manager: Manager) returns (r: Result<(), Error>)
      modifies repo, repo.table
      ensures var spec := DeleteSubscription(old(repo.State()), id, manager);
              if r.Ok? then spec == Ok(repo.State()) else spec == Err(r.error) && repo.State() == old(repo.State())
    {
      if id !in repo.table.rows {
        return Err(NotFound);
      } else if repo.table.rows[id].manager != manager {
        return Err(PermissionDenied);
      }
      var dependentOps := repo.GetDependentOperationalIntents(id);
      if |dependentOps| > 0 {
        return Err(BadRequest);
      }
      repo.table.rows := repo.table.rows - {id};
      return Ok(());
    }

    // ----- constraints -----

    method PutConstraintReference(id: Id, manager: Manager, ovn: Ovn, params: ConstraintParams, env: Env)
      returns (r: Result<Response, Error>)
      modifies repo, repo.table
      ensures Answers(r, repo.State(), old(repo.State()),
                      PutConstraint(old(repo.State()), cfg, id, manager, ovn, params, env))
    {
      if |params.baseUrl| == 0 {
        return Err(BadRequest);
      }
      if !cfg.enableHttp {
        if !cfg.validBaseUrl(params.baseUrl) {
          return Err(BadRequest);
        }
      }
      var uExtent := UnionVolumes4D(params.extents);
      if uExtent.Err? {
        return Err(BadRequest);
      }
      if uExtent.value.start.None? {
        return Err(BadRequest);
      }
      if uExtent.value.end.None? {
        return Err(BadRequest);
      }
      var box := BoxOf(uExtent.value);
      if box.Err? {
        return Err(BadRequest);
      }
      var version := 0;
      var notifyVol4 := box.value;
      if id !in repo.constraints {
        if ovn != "" {
          return Err(VersionMismatch);
        }
      } else {
        var prior := repo.constraints[id];
        if prior.manager != manager {
          return Err(PermissionDenied);
        }
        if prior.ovn != ovn {
          return Err(VersionMismatch);
        }
        version := prior.version;
        notifyVol4 := OldAndNewVolume(box.value, prior.box);
      }
      repo.constraints := repo.constraints[id :=
        Constraint(manager, ToInt32(version + 1), env.constraintOvn, params.baseUrl, box.value)];
      ghost var told := Notify(repo.State(), notifyVol4, false);
      var rows := NotifyVolume(repo, notifyVol4, false);
      var response := MakeSubscribersToNotify(rows, told.notified);
      return Ok(response);
    }

    method DeleteConstraintReference(id: Id, manager: Manager) returns (r: Result<Response, Error>)
      modifies repo, repo.table
      ensures Answers(r, repo.State(), old(repo.State()), DeleteConstraint(old(repo.State()), id, manager))
    {
      if id !in repo.constraints {
        return Err(NotFound);
      }
      var prior := repo.constraints[id];
      if prior.manager != manager {
        return Err(PermissionDenied);
      }
      repo.constraints := repo.constraints - {id};
      ghost var told := Notify(repo.State(), prior.box, false);
      var rows := NotifyVolume(repo, prior.box, false);
      var response := MakeSubscribersToNotify(rows, told.notified);
      return Ok(response);
    }
  }
}
