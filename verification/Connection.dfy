/** The open database: the tables the services read and write in place. */
module Connection {
  import opened Tables

  class Connection {
    var episodes: map<Id, Episode>
    var bindings: map<BindingKey, Option<Time>>
    var observations: map<Id, Observation>
    var reflections: map<Id, Reflection>
    var sources: set<Link>
    var semantics: map<Id, Counters>
    var exposures: seq<Exposure>

    constructor ()
      ensures Tables() == EMPTY
    {
      episodes, bindings, observations := map[], map[], map[];
      reflections, sources, semantics, exposures := map[], {}, map[], [];
    }

    function Tables(): Database
      reads this
    {
      Database(episodes, bindings, observations, reflections, sources, semantics, exposures)
    }

    /** `ROLLBACK TO SAVEPOINT`. */
    method RollBack(savepoint: Database)
      modifies this
      ensures Tables() == savepoint
    {
      episodes, bindings, observations := savepoint.episodes, savepoint.bindings, savepoint.observations;
      reflections, sources := savepoint.reflections, savepoint.sources;
      semantics, exposures := savepoint.semantics, savepoint.exposures;
    }
  }
}
