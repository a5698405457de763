/** The repository behind the strategic coordination service. */
module ScdRepository {
  import opened Common
  import opened SubscriptionTimes
  import opened Subscribers
  import opened ScdModel

  class Repository {
    var intents: map<Id, Intent>
    const table: Table<set<Cell>>
    var constraints: map<Id, Constraint>

    constructor ()
      ensures State() == Store(map[], map[], map[]) && fresh(table)
    {
      intents, constraints := map[], map[];
      table := new Table();
    }

    function State(): Store
      reads this, table
    {
      Store(intents, table.rows, constraints)
    }

    /** Gives up what an aborted transaction has done. */
    method Rollback(before: Store)
      modifies this, table
      ensures State() == before
    {
      intents, table.rows, constraints := before.intents, before.subscriptions, before.constraints;
    }

    method SearchOperationalIntents(v: Box) returns (r: Result<seq<Id>, Error>)
      ensures if v.cells == {} then r == Err(BadRequest)
              else r.Ok? && Enumerates(r.value, set id | id in intents && Overlaps(intents[id].box, v))
    {
      if v.cells == {} {
        return Err(BadRequest);
      }
      var list := Enumerate(set id | id in intents && Overlaps(intents[id].box, v));
      return Ok(list);
    }

    method GetDependentOperationalIntents(subscriptionId: Id) returns (list: seq<Id>)
      ensures Enumerates(list, Dependents(intents, subscriptionId))
      ensures |list| == |Dependents(intents, subscriptionId)|
    {
      list := Enumerate(Dependents(intents, subscriptionId));
    }

    method SearchSubscriptions(v: Box) returns (list: seq<Id>)
      ensures Enumerates(list, set id | id in table.rows
                                        && InVolume(table.rows[id].area, table.rows[id].range, v))
    {
      list := Enumerate(set id | id in table.rows
                                 && InVolume(table.rows[id].area, table.rows[id].range, v));
    }

    method SearchConstraints(v: Box) returns (list: seq<Id>)
      ensures Enumerates(list, set id | id in constraints && ConstraintInVolume(constraints[id], v))
    {
      list := Enumerate(set id | id in constraints && ConstraintInVolume(constraints[id], v));
    }
  }

  /** Searches the subscriptions in a volume and notifies those of them that are interested. */
  method NotifyVolume(r: Repository, v: Box, forIntents: bool) returns (rows: seq<Row<set<Cell>>>)
    modifies r.table
    ensures var told := Notify(old(r.State()), v, forIntents);
            r.State() == told.store && ListsRows(rows, told.notified)
  {
    var found := r.SearchSubscriptions(v);
    ghost var all := set id | id in r.table.rows && InVolume(r.table.rows[id].area, r.table.rows[id].range, v);
    assert Wanting(r.table.rows, all, forIntents) == InterestedIn(r.table.rows, v, forIntents);
    rows := NotifySubscriptions(r.table, found, forIntents, all);
  }
}
