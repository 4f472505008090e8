/** The rows of the memory database, one datatype per table, and the state of the
    whole database as one value. Row ids are opaque in the program (uuid4 hex);
    only their equality matters, so they are natural numbers here. Timestamps are
    integers. Text columns that no rule reads are left out. */
module Tables {

  datatype Option<+T> = None | Some(value: T)

  type Id = nat

  /** Projects, goals and session ids are only compared, so they are numbers too;
      NO_TEXT is the empty string. */
  type Text = nat
  const NO_TEXT: Text := 0

  type Time = int

  // ---- episodes and their session bindings ----

  datatype EpisodeOutcome = Success | Partial | AbandonedOutcome | NoOutcome
  datatype CloseReason = GoalComplete | PlanComplete | AbandonedReason | SupersededReason | SessionEndReconciled

  datatype Episode = Episode(
    project: Text,
    goal: Option<Text>,
    endedAt: Option<Time>,
    closeReason: Option<CloseReason>,
    outcome: Option<EpisodeOutcome>,
    synthesizedAt: Option<Time>,
    synthFailedAt: Option<Time>)

  /** The key of an `episode_sessions` row; the row itself holds `left_at`. */
  datatype BindingKey = BindingKey(episode: Id, session: Text)

  // ---- observations, reflections and the evidence links between them ----

  datatype ObservationStatus = Active | ConsumedIntoReflection | ConsumedWithoutReflection | Archived

  datatype Observation = Observation(episode: Id, status: ObservationStatus, changedAt: Option<Time>)

  datatype ReflectionStatus = PendingReview | Confirmed | Retired | Superseded

  /** The four rating counters of a memory row and the time each last moved. */
  datatype Counters = Counters(
    useful: nat, misled: nat, overlooked: nat, ignored: nat,
    lastUseful: Option<Time>, lastMisled: Option<Time>,
    lastOverlooked: Option<Time>, lastIgnored: Option<Time>)

  const ZERO_COUNTERS := Counters(0, 0, 0, 0, None, None, None, None)

  datatype Reflection = Reflection(
    project: Text,
    status: ReflectionStatus,
    supersededBy: Option<Id>,
    evidenceCount: nat,
    confidence: real,
    counters: Counters,
    updatedAt: Time)

  /** A `reflection_sources` row. The pair is the table's primary key. */
  datatype Link = Link(reflection: Id, observation: Id)

  // ---- the exposure ledger ----

  datatype Kind = ReflectionKind | SemanticKind
  datatype Class = Cited | Shaped | Ignored | Misled | Overlooked

  datatype Rating = Rating(verdict: Class, at: Time)
  datatype Exposure = Exposure(session: Text, kind: Kind, memory: Id, rating: Option<Rating>)

  /** The database. `exposures` is in insertion order. */
  datatype Database = Database(
    episodes: map<Id, Episode>,
    bindings: map<BindingKey, Option<Time>>,
    observations: map<Id, Observation>,
    reflections: map<Id, Reflection>,
    sources: set<Link>,
    semantics: map<Id, Counters>,
    exposures: seq<Exposure>)

  const EMPTY: Database := Database(map[], map[], map[], map[], {}, map[], [])

  /** The rows of one reflection in the link table: what `COUNT(*)` counts. */
  function LinksOf(sources: set<Link>, reflection: Id): set<Link> {
    set l | l in sources && l.reflection == reflection
  }

  predicate Linked(sources: set<Link>, observation: Id) {
    exists l :: l in sources && l.observation == observation
  }
}
