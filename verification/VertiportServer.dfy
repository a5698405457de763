/** The vertiport handlers for operational intents, subscriptions and constraints. Each runs one transaction; a handler
    that returns an error leaves the repository as it was. */
module VertiportServer {
  import opened Common
  import opened SubscriptionTimes
  import opened Subscribers
  import opened VertiportModel

  class Repository {
    var intents: map<Id, Intent>
    const table: Table<Place>
    var constraints: map<Id, Constraint>

    constructor ()
      ensures State() == Store(map[], map[], map[]) && fresh(table)
    {
      intents, constraints := map[], map[];
      table := new Table();
    }

    function State(): Store
      reads this, table
    {
      Store(intents, table.rows, constraints)
    }

    method Rollback(before: Store)
      modifies this, table
      ensures State() == before
    {
      intents, table.rows, constraints := before.intents, before.subscriptions, before.constraints;
    }

    method SearchVertiportOperationalIntents(v: Reservation) returns (list: seq<Id>)
      ensures Enumerates(list, set id | id in intents && Meets(intents[id].reservation, v))
    {
      list := Enumerate(set id | id in intents && Meets(intents[id].reservation, v));
    }

    method SearchVertiportConstraints(v: Reservation) returns (list: seq<Id>)
      ensures Enumerates(list, set id | id in constraints && Meets(constraints[id].reservation, v))
    {
      list := Enumerate(set id | id in constraints && Meets(constraints[id].reservation, v));
    }

    method SearchVertiportSubscriptions(v: Reservation) returns (list: seq<Id>)
      ensures Enumerates(list, Found(table.rows, v))
    {
      list := Enumerate(Found(table.rows, v));
    }

    method GetDependentVertiportOperationalIntents(subscriptionId: Id) returns (list: seq<Id>)
      ensures Enumerates(list, Dependents(intents, subscriptionId))
      ensures |list| == |Dependents(intents, subscriptionId)|
    {
      list := Enumerate(Dependents(intents, subscriptionId));
    }
  }

  type Response = seq<SubscriberToNotify>

  /** The repository and the answer are those of `spec`. */
  ghost predicate Answers(r: Result<Response, Error>, after: Store, before: Store, spec: Result<Outcome, Error>) {
    match r
    case Ok(response) => spec.Ok? && after == spec.value.store && Names(response, spec.value.notified)
    case Err(e) => spec == Err(e) && after == before
  }

  class Server {
    const cfg: Config
    const repo: Repository

    constructor (cfg: Config, repo: Repository)
      ensures this.cfg == cfg && this.repo == repo
    {
      this.cfg, this.repo := cfg, repo;
    }

    // ----- operational intents -----

    method PutVertiportOperationalIntentReference(id: Id, manager: Manager, ovn: Ovn, params: IntentParams, env: Env)
      returns (r: Result<Response, Error>)
      modifies repo, repo.table
      ensures Answers(r, repo.State(), old(repo.State()),
                      PutIntent(old(repo.State()), cfg, id, manager, ovn, params, env))
    {
      if |params.baseUrl| == 0 {
        return Err(BadRequest);
      }
      if !cfg.enableHttp {
        if !cfg.validBaseUrl(params.baseUrl) {
          return Err(BadRequest);
        }
      }
      if !IsValidInDSS(params.state) {
        return Err(BadRequest);
      }
      var range := params.reservation.range;
      if params.reservation.place.vertiport == "" {
        return Err(BadRequest);
      }
      if range.start.None? {
        return Err(BadRequest);
      }
      if range.end.None? {
        return Err(BadRequest);
      }
      if env.now > range.end.value {
        return Err(BadRequest);
      }
      if range.end.value < range.start.value {
        return Err(BadRequest);
      }
      if ovn == "" && params.state != "Accepted" {
        return Err(BadRequest);
      }
      var before := repo.State();
      r := PutInTransaction(id, manager, ovn, params, env);
      if r.Err? {
        repo.Rollback(before);
      }
    }

    method PutInTransaction(id: Id, manager: Manager, ovn: Ovn, params: IntentParams, env: Env)
      returns (r: Result<Response, Error>)
      requires ValidIntentParams(cfg, ovn, params, env.now)
      modifies repo, repo.table
      ensures var spec := PutIntent(old(repo.State()), cfg, id, manager, ovn, params, env);
              if r.Ok? then spec.Ok? && repo.State() == spec.value.store && Names(r.value, spec.value.notified)
              else spec == Err(r.error)
    {
      hide AttachSubscription, CheckKey, WriteIntent;
      var prior: Option<Intent> := None;
      if id in repo.intents {
        prior := Some(repo.intents[id]);
        if prior.value.manager != manager {
          return Err(PermissionDenied);
        }
        if prior.value.ovn != ovn {
          return Err(VersionMismatch);
        }
      } else {
        if ovn != "" {
          return Err(NotFound);
        }
      }
      var attached := Attach(manager, params, env);
      if attached.Err? {
        return Err(attached.error);
      }
      var subscriptionId := attached.value;
      if RequiresKey(params.state) {
        var checked := FindMissing(manager, params, repo.table.rows[subscriptionId].notifyForConstraints);
        if checked.Err? {
          return Err(checked.error);
        }
      }
      var response := Write(id, manager, prior, params, subscriptionId, env);
      return Ok(response);
    }

    method Write(id: Id, manager: Manager, prior: Option<Intent>, params: IntentParams, subscriptionId: Id, env: Env)
      returns (response: Response)
      modifies repo, repo.table
      ensures var spec := WriteIntent(old(repo.State()), id, manager, prior, params, subscriptionId, env);
              repo.State() == spec.store && Names(response, spec.notified)
    {
      var version := if prior.None? then 0 else prior.value.version;
      repo.intents := repo.intents[id :=
        Intent(manager, ToInt32(version + 1), params.state, env.intentOvn, params.baseUrl, subscriptionId,
               params.reservation)];
      ghost var told := Notify(repo.State(), params.reservation, true);
      var rows := NotifyReservation(params.reservation, true);
      response := MakeSubscribersToNotify(rows, told.notified);
    }

    /** Searches the subscriptions at a reservation and notifies those of them that are interested. */
    method NotifyReservation(v: Reservation, forIntents: bool) returns (rows: seq<Row<Place>>)
      modifies repo.table
      ensures var told := Notify(old(repo.State()), v, forIntents);
              repo.State() == told.store && ListsRows(rows, told.notified)
    {
      var found := repo.SearchVertiportSubscriptions(v);
      rows := NotifySubscriptions(repo.table, found, forIntents, Found(repo.table.rows, v));
    }

    /** Creates an implicit subscription for an intent, or takes the one it names and moves it if needed. */
    method Attach(manager: Manager, params: IntentParams, env: Env) returns (r: Result<Id, Error>)
      requires params.reservation.range.start.Some? && params.reservation.range.end.Some?
      modifies repo.table
      ensures var spec := AttachSubscription(old(repo.table.rows), cfg, manager, params, env);
              if r.Ok? then spec == Ok(Attached(repo.table.rows, r.value)) else spec == Err(r.error)
    {
      var u := params.reservation;
      if params.subscriptionId == "" {
        if params.newSubscriptionUrl == "" {
          return Err(BadRequest);
        }
        if !cfg.enableHttp {
          if !cfg.validBaseUrl(params.newSubscriptionUrl) {
            return Err(BadRequest);
          }
        }
        repo.table.rows := repo.table.rows[env.newId :=
          Subscription(env.subscriptionOvn, 0, manager, u.range, params.newSubscriptionUrl,
                       true, params.newSubscriptionForConstraints, true, u.place)];
        return Ok(env.newId);
      }
      if params.subscriptionId !in repo.table.rows {
        return Err(BadRequest);
      }
      var sub := repo.table.rows[params.subscriptionId];
      if sub.manager != manager {
        return Err(PermissionDenied);
      }
      var updateSub := false;
      if sub.range.start.Some? && sub.range.start.value > u.range.start.value {
        if !sub.implicit {
          return Err(BadRequest);
        }
        sub := sub.(range := sub.range.(start := u.range.start));
        updateSub := true;
      }
      if sub.range.end.Some? && sub.range.end.value < u.range.end.value {
        if !sub.implicit {
          return Err(BadRequest);
        }
        sub := sub.(range := sub.range.(end := u.range.end));
        updateSub := true;
      }
      if sub.area.vertiport != u.place.vertiport {
        if !sub.implicit {
          return Err(BadRequest);
        }
        sub := sub.(area := sub.area.(vertiport := u.place.vertiport));
        updateSub := true;
      }
      if sub.area.zone != u.place.zone {
        if !sub.implicit {
          return Err(BadRequest);
        }
        sub := sub.(area := sub.area.(zone := u.place.zone));
        updateSub := true;
      }
      if updateSub {
        repo.table.rows := repo.table.rows[params.subscriptionId := sub.(version := env.subscriptionOvn)];
      }
      return Ok(params.subscriptionId);
    }

    /** Compares the key with the OVNs of the intents, and on demand the constraints, at the reservation. */
    method FindMissing(manager: Manager, params: IntentParams, constraintsToo: bool) returns (r: Result<(), Error>)
      ensures r == CheckKey(repo.intents, repo.constraints, manager, params, constraintsToo)
    {
      var relevantOps := repo.SearchVertiportOperationalIntents(params.reservation);
      assert forall id :: id in relevantOps ==> id in repo.intents;
      var missingOps: map<Id, Ovn> := map[];
      for i := 0 to |relevantOps|
        invariant missingOps.Keys == set id | id in relevantOps[..i] && repo.intents[id].ovn !in params.key
        invariant forall id :: id in missingOps ==>
                    missingOps[id] == Masked(repo.intents[id].manager, manager, repo.intents[id].ovn)
      {
        assert relevantOps[i] in relevantOps && relevantOps[..i + 1] == relevantOps[..i] + [relevantOps[i]];
        var relevantOp := repo.intents[relevantOps[i]];
        if relevantOp.ovn !in params.key {
          if relevantOp.manager != manager {
            relevantOp := relevantOp.(ovn := NO_OVN_PHRASE);
          }
          missingOps := missingOps[relevantOps[i] := relevantOp.ovn];
        }
      }
      assert relevantOps[..|relevantOps|] == relevantOps;
      assert missingOps == MissingIntents(repo.intents, manager, params.reservation, params.key);
      var missingConstraints: map<Id, Ovn> := map[];
      if constraintsToo {
        missingConstraints := FindMissingConstraints(manager, params);
      }
      if missingOps != map[] || missingConstraints != map[] {
        return Err(MissingOvns(missingOps, missingConstraints));
      }
      return Ok(());
    }

    method FindMissingConstraints(manager: Manager, params: IntentParams) returns (missing: map<Id, Ovn>)
      ensures missing == MissingConstraints(repo.constraints, manager, params.reservation, params.key)
    {
      var list := repo.SearchVertiportConstraints(params.reservation);
      assert forall id :: id in list ==> id in repo.constraints;
      missing := map[];
      for i := 0 to |list|
        invariant missing.Keys == set id | id in list[..i] && repo.constraints[id].ovn !in params.key
        invariant forall id :: id in missing ==>
                    missing[id] == Masked(repo.constraints[id].manager, manager, repo.constraints[id].ovn)
      {
        assert list[i] in list && list[..i + 1] == list[..i] + [list[i]];
        var relevantConstraint := repo.constraints[list[i]];
        if relevantConstraint.ovn !in params.key {
          if relevantConstraint.manager != manager {
            relevantConstraint := relevantConstraint.(ovn := NO_OVN_PHRASE);
          }
          missing := missing[list[i] := relevantConstraint.ovn];
        }
      }
      assert list[..|list|] == list;
    }

    method DeleteVertiportOperationalIntentReference(id: Id, manager: Manager) returns (r: Result<Response, Error>)
      modifies repo, repo.table
      ensures Answers(r, repo.State(), old(repo.State()), DeleteIntent(old(repo.State()), id, manager))
    {
      if id !in repo.intents {
        return Err(NotFound);
      }
      var prior := repo.intents[id];
      if prior.manager != manager {
        return Err(PermissionDenied);
      }
      if prior.subscriptionId !in repo.table.rows {
        return Err(SubscriptionMissing);
      }
      var removeImplicitSubscription := false;
      if repo.table.rows[prior.subscriptionId].implicit {
        var dependentOps := repo.GetDependentVertiportOperationalIntents(prior.subscriptionId);
        if |dependentOps| == 0 {
          return Err(NoDependents);
        } else if |dependentOps| == 1 {
          removeImplicitSubscription := true;
        }
      }
      ghost var told := Notify(repo.State(), prior.reservation, true);
      var rows := NotifyReservation(prior.reservation, true);
      repo.intents := repo.intents - {id};
      if removeImplicitSubscription {
        repo.table.rows := repo.table.rows - {prior.subscriptionId};
      }
      var response := MakeSubscribersToNotify(rows, told.notified);
      return Ok(response);
    }

    // ----- subscriptions -----

    /** When several dependent intents are not covered, the order in which they are listed decides whether the
        answer is a rejection or a nil dereference. */
    method PutVertiportSubscription(id: Id, manager: Manager, version: Ovn, params: SubscriptionParams, env: Env)
      returns (r: Result<(), Error>)
      modifies repo.table
      ensures var spec := PutSubscription(old(repo.State()), cfg, id, manager, version, params, env);
              match r
              case Ok(_) => spec == Ok(repo.State())
              case Err(e) =>
                && repo.State() == old(repo.State())
                && (spec == Err(e)
                    || (spec == Err(BadRequest) && SomeDependentFails(old(repo.State()), id, params, env.now, e)))
    {
      if !cfg.enableHttp {
        if !cfg.validBaseUrl(params.baseUrl) {
          return Err(BadRequest);
        }
      }
      if params.reservation.place.vertiport == "" {
        return Err(PermissionDenied);
      }
      if !params.notifyForIntents && !params.notifyForConstraints {
        return Err(BadRequest);
      }
      var times := new TimeRange(params.reservation.range.start, params.reservation.range.end);
      var prior := if id in repo.table.rows then Some(repo.table.rows[id].range) else None;
      var adjusted := times.AdjustTimeRange(env.now, prior);
      if adjusted.Err? {
        return Err(adjusted.error);
      }
      AdjustedIsBounded(env.now, params.reservation.range, prior);
      var index := 0;
      if prior.None? {
        if version != "" {
          return Err(NotFound);
        }
      } else {
        var sub := repo.table.rows[id];
        if version == "" {
          return Err(AlreadyExists);
        } else if version != sub.version {
          return Err(VersionMismatch);
        } else if sub.manager != manager {
          return Err(PermissionDenied);
        }
        index := sub.index;
        var dependentOpIds := repo.GetDependentVertiportOperationalIntents(id);
        var covered := ValidateDependentOps(params.reservation.place, times.Value(), dependentOpIds);
        if covered.Err? {
          return Err(covered.error);
        }
      }
      repo.table.rows := repo.table.rows[id :=
        Subscription(env.subscriptionOvn, index, manager, times.Value(), params.baseUrl,
                     params.notifyForIntents, params.notifyForConstraints, false, params.reservation.place)];
      return Ok(());
    }

    method ValidateDependentOps(place: Place, range: Range, opIds: seq<Id>) returns (r: Result<(), Error>)
      requires Bounded(range) && forall d :: d in opIds ==> d in repo.intents
      ensures r.Ok? <==> forall d :: d in opIds ==> ValidateDependentOp(place, range, repo.intents[d].reservation).Ok?
      ensures r.Err? ==>
                exists d :: d in opIds && ValidateDependentOp(place, range, repo.intents[d].reservation) == Err(r.error)
    {
      for i := 0 to |opIds|
        invariant forall k :: 0 <= k < i ==> ValidateDependentOp(place, range, repo.intents[opIds[k]].reservation).Ok?
      {
        var opId := opIds[i];
        assert opId in opIds;
        var valid := ValidateDependentOp(place, range, repo.intents[opId].reservation);
        if valid.Err? {
          return valid;
        }
      }
      return Ok(());
    }

    method DeleteVertiportSubscription(id: Id, manager: Manager) returns (r: Result<(), Error>)
      modifies repo.table
      ensures var spec := DeleteSubscription(old(repo.State()), id, manager);
              if r.Ok? then spec == Ok(repo.State()) else spec == Err(r.error) && repo.State() == old(repo.State())
    {
      if id !in repo.table.rows {
        return Err(NotFound);
      } else if repo.table.rows[id].manager != manager {
        return Err(PermissionDenied);
      }
      var dependentOps := repo.GetDependentVertiportOperationalIntents(id);
      if |dependentOps| > 0 {
        return Err(BadRequest);
      }
      repo.table.rows := repo.table.rows - {id};
      return Ok(());
    }

    // ----- constraints -----

    method PutVertiportConstraintReference(id: Id, manager: Manager, ovn: Ovn, params: ConstraintParams, env: Env)
      returns (r: Result<Response, Error>)
      modifies repo, repo.table
      ensures Answers(r, repo.State(), old(repo.State()),
                      PutConstraint(old(repo.State()), cfg, id, manager, ovn, params, env))
    {
      if |params.baseUrl| == 0 {
        return Err(BadRequest);
      }
      if !cfg.enableHttp {
        if !cfg.validBaseUrl(params.baseUrl) {
          return Err(BadRequest);
        }
      }
      if params.reservation.range.start.None? {
        return Err(BadRequest);
      }
      if params.reservation.range.end.None? {
        return Err(BadRequest);
      }
      var version := 0;
      if id !in repo.constraints {
        if ovn != "" {
          return Err(VersionMismatch);
        }
      } else {
        var prior := repo.constraints[id];
        if prior.manager != manager {
          return Err(PermissionDenied);
        }
        if prior.ovn != ovn {
          return Err(VersionMismatch);
        }
        version := prior.version;
      }
      repo.constraints := repo.constraints[id :=
        Constraint(manager, ToInt32(version + 1), env.constraintOvn, params.baseUrl, params.reservation)];
      ghost var told := Notify(repo.State(), params.reservation, false);
      var rows := NotifyReservation(params.reservation, false);
      var response := MakeSubscribersToNotify(rows, told.notified);
      return Ok(response);
    }

    /** The subscriptions are searched before the constraint is removed, and notified after. */
    method DeleteVertiportConstraintReference(id: Id, manager: Manager) returns (r: Result<Response, Error>)
      modifies repo, repo.table
      ensures Answers(r, repo.State(), old(repo.State()), DeleteConstraint(old(repo.State()), id, manager))
    {
      if id !in repo.constraints {
        return Err(NotFound);
      }
      var prior := repo.constraints[id];
      if prior.manager != manager {
        return Err(PermissionDenied);
      }
      var found := repo.SearchVertiportSubscriptions(prior.reservation);
      repo.constraints := repo.constraints - {id};
      ghost var told := Notify(repo.State(), prior.reservation, false);
      var rows := NotifySubscriptions(repo.table, found, false, Found(repo.table.rows, prior.reservation));
      var response := MakeSubscribersToNotify(rows, told.notified);
      return Ok(response);
    }
  }
}
