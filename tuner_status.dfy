/** The status colour shown beside each tuner of the backend. */
module TunerStatus {
  import opened Optional

  /** A client holding the tuner; the backend lets a client of higher priority take it over. */
  datatype User = User(id: string, priority: Option<int>, agent: Option<string>)

  datatype Tuner = Tuner(
    index: int,
    name: string,
    types: seq<string>,
    command: Option<string>,
    pid: Option<int>,
    users: Option<seq<User>>,
    isAvailable: bool,
    isRemote: bool,
    isFree: bool,
    isUsing: bool,
    isFault: bool)

  /** `tuner.users?.at(0)?.priority`: only the first user is consulted. */
  function FirstPriority(t: Tuner): Option<int> {
    if t.users.Some? && |t.users.value| > 0 then t.users.value[0].priority else None
  }

  /** In use only by a client that may be pre-empted (first user's priority at most zero). */
  predicate Preemptible(t: Tuner) {
    FirstPriority(t).Some? && FirstPriority(t).value <= 0
  }

  /**
   * The colour for a tuner. The checks run in order: a fault wins over
   * everything, a free tuner is green even when flagged in use, an in-use
   * tuner is amber when pre-emptible and red otherwise (also with no
   * users), and anything else is dark grey. Each colour is given exactly
   * in its own case, so the five cases partition all tuners.
   */
  function StatusColor(t: Tuner): (color: string)
    ensures color in {"gray.600", "success.main", "warning.main", "error.main", "gray.800"}
    ensures color == "gray.600" <==> t.isFault
    ensures color == "success.main" <==> !t.isFault && t.isFree
    ensures color == "warning.main" <==> !t.isFault && !t.isFree && t.isUsing && Preemptible(t)
    ensures color == "error.main" <==> !t.isFault && !t.isFree && t.isUsing && !Preemptible(t)
    ensures color == "gray.800" <==> !t.isFault && !t.isFree && !t.isUsing
  {
    if t.isFault then "gray.600"
    else if t.isFree then "success.main"
    else if t.isUsing && FirstPriority(t).Some? && FirstPriority(t).value <= 0 then "warning.main"
    else if t.isUsing then "error.main"
    else "gray.800"
  }

  /** Users after the first never change the colour. */
  lemma OnlyFirstUserCounts(t: Tuner, rest: seq<User>)
    requires t.users.Some? && |t.users.value| > 0
    ensures StatusColor(t) == StatusColor(t.(users := Some([t.users.value[0]] + rest)))
  {
  }
}
