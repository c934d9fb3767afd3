/**
  The consensus retry automaton of the order processor.

  A consensus round that fails requeues the order until a budget of counted attempts is
  spent. Attempts closer together than the spacing are not counted, and an order without
  deadline headroom is rejected at once. Old entries are dropped when the table grows.
 */
module ConsensusRetry {

  type OrderId = string

  datatype Entry = Entry(attempts: nat, last: real)

  type Table = map<OrderId, Entry>

  /** `ORDER_CONSENSUS_RETRY_MAX` and `ORDER_CONSENSUS_RETRY_SPACING_S`. */
  datatype Config = Config(max: int, spacing: real)

  datatype Decision = Requeue | Reject

  const MIN_DEADLINE_LEFT: real := 60.0
  const PRUNE_ABOVE: nat := 256
  const PRUNE_AGE: real := 7200.0

  function Pruned(table: Table, now: real): Table {
    if |table| > PRUNE_ABOVE
    then map k | k in table && now - table[k].last < PRUNE_AGE :: table[k]
    else table
  }

  /** A deadline that is not positive means "no deadline". */
  predicate Headroom(deadline: real, now: real) {
    deadline <= 0.0 || deadline - now > MIN_DEADLINE_LEFT
  }

  function EntryOf(table: Table, id: OrderId): Entry {
    if id in table then table[id] else Entry(0, 0.0)
  }

  predicate InSpacing(cfg: Config, e: Entry, now: real) {
    e.attempts > 0 && now - e.last < cfg.spacing
  }

  function DecisionOf(cfg: Config, table: Table, id: OrderId, deadline: real, now: real): Decision {
    var e := EntryOf(Pruned(table, now), id);
    if Headroom(deadline, now) && (InSpacing(cfg, e, now) || e.attempts < cfg.max) then Requeue else Reject
  }

  function TableAfter(cfg: Config, table: Table, id: OrderId, deadline: real, now: real): Table {
    var kept := Pruned(table, now);
    var e := EntryOf(kept, id);
    if DecisionOf(cfg, table, id, deadline, now).Reject? then kept - {id}
    else if InSpacing(cfg, e, now) then kept
    else kept[id := Entry(e.attempts + 1, now)]
  }

  // ---------------------------------------------------------------- whole runs

  /**
    What happens to the table: a failed round, or a round that was reached
    (minotaur_subnet/blockloop/order_processor.py:624).
   */
  datatype Event = Failed(id: OrderId, deadline: real, now: real) | Reached(id: OrderId, now: real)

  function Apply(cfg: Config, table: Table, e: Event): Table {
    match e
    case Failed(id, deadline, now) => TableAfter(cfg, table, id, deadline, now)
    case Reached(id, _) => table - {id}
  }

  function After(cfg: Config, table: Table, events: seq<Event>): Table {
    if events == [] then table
    else Apply(cfg, After(cfg, table, events[..|events| - 1]), events[|events| - 1])
  }

  predicate Sorted(events: seq<Event>) {
    forall i, j :: 0 <= i <= j < |events| ==> events[i].now <= events[j].now
  }

  /** The time of the latest failure of `id`; `first` before there was one. */
  function LastFailure(events: seq<Event>, id: OrderId, first: real): real {
    if events == [] then first
    else
      var e := events[|events| - 1];
      if e.Failed? && e.id == id then e.now else LastFailure(events[..|events| - 1], id, first)
  }

  /** Every event up to the last one comes at most `d` after the latest failure of `id`. */
  ghost predicate Steady(events: seq<Event>, id: OrderId, first: real, d: real) {
    forall i :: 0 <= i < |events| ==> events[i].now <= LastFailure(events[..i], id, first) + d
  }

  /** The order starts failing with the first event, keeps failing, and never lacks headroom. */
  ghost predicate KeepsFailing(events: seq<Event>, id: OrderId) {
    && |events| > 0
    && events[0].Failed? && events[0].id == id
    && forall i :: 0 <= i < |events| && events[i].id == id ==>
                     events[i].Failed? && Headroom(events[i].deadline, events[i].now)
  }

  ghost predicate RejectedAt(cfg: Config, table: Table, events: seq<Event>, id: OrderId, i: nat) {
    && i < |events|
    && events[i].Failed? && events[i].id == id
    && DecisionOf(cfg, After(cfg, table, events[..i]), id, events[i].deadline, events[i].now).Reject?
  }

  ghost predicate NeverRejected(cfg: Config, table: Table, events: seq<Event>, id: OrderId) {
    forall i: nat | i < |events| :: !RejectedAt(cfg, table, events, id, i)
  }

  /** `n` intervals of length `x`, by repeated addition. */
  function Times(n: nat, x: real): real {
    if n == 0 then 0.0 else Times(n - 1, x) + x
  }

  lemma {:induction false} TimesIsProduct(n: nat, x: real)
    ensures Times(n, x) == n as real * x
  {
    if n > 0 {
      TimesIsProduct(n - 1, x);
      assert (n - 1) as real * x + x == n as real * x;
    }
  }

  lemma {:induction false} TimesMonotone(n: nat, x: real, y: real)
    requires x <= y
    ensures Times(n, x) <= Times(n, y)
  {
    if n > 0 { TimesMonotone(n - 1, x, y); }
  }

  /** What the table knows about an order that has failed since `first` without being rejected. */
  ghost predicate Tracked(cfg: Config, table: Table, id: OrderId, first: real, latest: real, d: real) {
    && id in table
    && var e := table[id];
    && 1 <= e.attempts <= cfg.max
    && e.last <= latest
    && (latest - e.last < cfg.spacing || latest == e.last)
    && first + Times(e.attempts - 1, cfg.spacing) <= e.last
    && e.last <= first + Times(e.attempts - 1, cfg.spacing + d)
  }

  ghost predicate Bounds(cfg: Config, d: real) {
    && cfg.max >= 1 && 0.0 <= cfg.spacing && 0.0 <= d && cfg.spacing + d <= PRUNE_AGE
    && (cfg.spacing > 0.0 || d < PRUNE_AGE)
  }

  lemma PruneKeepsTracked(cfg: Config, table: Table, id: OrderId, first: real, latest: real, d: real, now: real)
    requires Bounds(cfg, d)
    requires Tracked(cfg, table, id, first, latest, d)
    requires latest <= now <= latest + d
    ensures Tracked(cfg, Pruned(table, now), id, first, latest, d)
    ensures Pruned(table, now)[id] == table[id]
  {
    var e := table[id];
    assert now - e.last < PRUNE_AGE;
  }

  lemma StepKeepsTracked(cfg: Config, table: Table, id: OrderId, first: real, latest: real, d: real, e: Event)
    requires Bounds(cfg, d)
    requires Tracked(cfg, table, id, first, latest, d)
    requires latest <= e.now <= latest + d
    requires e.id == id ==> e.Failed? && Headroom(e.deadline, e.now)
    requires e.id == id ==> DecisionOf(cfg, table, id, e.deadline, e.now).Requeue?
    ensures Tracked(cfg, Apply(cfg, table, e), id, first, if e.id == id then e.now else latest, d)
  {
    if e.Failed? { PruneKeepsTracked(cfg, table, id, first, latest, d, e.now); }
  }

  lemma FirstTracked(cfg: Config, table: Table, events: seq<Event>, id: OrderId, d: real)
    requires Bounds(cfg, d) && id !in table && |events| == 1
    requires KeepsFailing(events, id) && Steady(events, id, events[0].now, d)
    requires NeverRejected(cfg, table, events, id)
    ensures Tracked(cfg, After(cfg, table, events), id, events[0].now, LastFailure(events, id, events[0].now), d)
    ensures LastFailure(events, id, events[0].now) <= events[0].now
  {
    assert events[..0] == [] && After(cfg, table, []) == table;
    assert !RejectedAt(cfg, table, events, id, 0);
    assert id !in Pruned(table, events[0].now);
  }

  lemma PrefixNeverRejected(cfg: Config, table: Table, events: seq<Event>, id: OrderId, n: nat)
    requires n <= |events| && NeverRejected(cfg, table, events, id)
    ensures NeverRejected(cfg, table, events[..n], id)
  {
    forall i: nat | i < n ensures !RejectedAt(cfg, table, events[..n], id, i) {
      assert events[..n][..i] == events[..i];
      assert !RejectedAt(cfg, table, events, id, i);
    }
  }

  lemma PrefixKeeps(events: seq<Event>, id: OrderId, d: real, n: nat)
    requires 0 < n <= |events|
    requires Sorted(events) && KeepsFailing(events, id) && Steady(events, id, events[0].now, d)
    ensures Sorted(events[..n]) && KeepsFailing(events[..n], id) && Steady(events[..n], id, events[0].now, d)
  {
    forall i | 0 <= i < n ensures events[..n][i].now <= LastFailure(events[..n][..i], id, events[0].now) + d {
      assert events[..n][..i] == events[..i];
    }
  }

  lemma {:induction false} RunTracked(cfg: Config, table: Table, events: seq<Event>, id: OrderId, d: real)
    requires Bounds(cfg, d)
    requires id !in table
    requires Sorted(events) && KeepsFailing(events, id) && Steady(events, id, events[0].now, d)
    requires NeverRejected(cfg, table, events, id)
    ensures Tracked(cfg, After(cfg, table, events), id, events[0].now,
                    LastFailure(events, id, events[0].now), d)
    ensures LastFailure(events, id, events[0].now) <= events[|events| - 1].now
    decreases |events|
  {
    var n := |events| - 1;
    var e := events[n];
    var before := events[..n];
    if n == 0 {
      FirstTracked(cfg, table, events, id, d);
    } else {
      PrefixNeverRejected(cfg, table, events, id, n);
      PrefixKeeps(events, id, d, n);
      RunTracked(cfg, table, before, id, d);
      assert events[..n] == before;
      assert !RejectedAt(cfg, table, events, id, n);
      StepKeepsTracked(cfg, After(cfg, table, before), id, events[0].now,
                       LastFailure(before, id, events[0].now), d, e);
    }
  }

  lemma {:induction false} TimesGap(m: nat, n: nat, x: real)
    requires m <= n && 0.0 <= x
    ensures Times(m, x) <= Times(n, x)
    decreases n - m
  {
    if m < n { TimesGap(m + 1, n, x); }
  }

  /** One more failure of a tracked order: when it may be rejected, and how late it can be. */
  lemma FailureOfTracked(cfg: Config, table: Table, id: OrderId, first: real, latest: real, d: real,
                         deadline: real, now: real)
    requires Bounds(cfg, d)
    requires Tracked(cfg, table, id, first, latest, d)
    requires latest <= now <= latest + d && Headroom(deadline, now)
    ensures DecisionOf(cfg, table, id, deadline, now).Reject? ==>
              first + Times(cfg.max, cfg.spacing) <= now
    ensures now <= first + Times(cfg.max, cfg.spacing + d)
    ensures cfg.spacing > 0.0 ==> now < first + Times(cfg.max, cfg.spacing + d)
  {
    PruneKeepsTracked(cfg, table, id, first, latest, d, now);
    TimesGap(table[id].attempts - 1, cfg.max - 1, cfg.spacing + d);
  }

  /**
    Two-sided time bound. Take any interleaving of failing and succeeding orders in which
    `id` starts failing with the first event, keeps failing at most `d` apart and never lacks
    deadline headroom. It is not rejected before MAX spacings have passed; while it is not
    rejected, less than MAX * (spacing + d) have passed; and no event of any other order
    (pruning included) can reset it. `Times(n, x)` is n * x (TimesIsProduct).
   */
  lemma RejectionTime(cfg: Config, table: Table, events: seq<Event>, id: OrderId, d: real)
    requires Bounds(cfg, d)
    requires id !in table
    requires Sorted(events) && KeepsFailing(events, id) && Steady(events, id, events[0].now, d)
    requires events[|events| - 1].id == id
    requires NeverRejected(cfg, table, events[..|events| - 1], id)
    ensures RejectedAt(cfg, table, events, id, |events| - 1) ==>
              events[0].now + Times(cfg.max, cfg.spacing) <= events[|events| - 1].now
    ensures events[|events| - 1].now <= events[0].now + Times(cfg.max, cfg.spacing + d)
    ensures cfg.spacing > 0.0 ==>
              events[|events| - 1].now < events[0].now + Times(cfg.max, cfg.spacing + d)
  {
    var n := |events| - 1;
    var before := events[..n];
    var first := events[0].now;
    if n == 0 {
      FirstFailure(cfg, table, events, id, d);
    } else {
      RunBefore(cfg, table, events, id, d);
      FailureOfTracked(cfg, After(cfg, table, before), id, first, LastFailure(before, id, first), d,
                       events[n].deadline, events[n].now);
    }
  }

  lemma FirstFailure(cfg: Config, table: Table, events: seq<Event>, id: OrderId, d: real)
    requires Bounds(cfg, d) && id !in table
    requires |events| == 1 && KeepsFailing(events, id)
    ensures !RejectedAt(cfg, table, events, id, 0)
    ensures 0.0 <= Times(cfg.max, cfg.spacing + d)
    ensures cfg.spacing > 0.0 ==> 0.0 < Times(cfg.max, cfg.spacing + d)
  {
    assert id !in Pruned(After(cfg, table, events[..0]), events[0].now);
    TimesGap(1, cfg.max, cfg.spacing + d);
    assert Times(1, cfg.spacing + d) == Times(0, cfg.spacing + d) + (cfg.spacing + d);
  }

  lemma RunBefore(cfg: Config, table: Table, events: seq<Event>, id: OrderId, d: real)
    requires Bounds(cfg, d) && id !in table && |events| > 1
    requires Sorted(events) && KeepsFailing(events, id) && Steady(events, id, events[0].now, d)
    requires NeverRejected(cfg, table, events[..|events| - 1], id)
    ensures var before := events[..|events| - 1];
            var latest := LastFailure(before, id, events[0].now);
            && Tracked(cfg, After(cfg, table, before), id, events[0].now, latest, d)
            && latest <= events[|events| - 1].now <= latest + d
  {
    var before := events[..|events| - 1];
    forall i: nat | i < |before| ensures before[..i] == events[..i] {}
    RunTracked(cfg, table, before, id, d);
  }

  /** These events are failures of `id`, in order, each at least one spacing after the one before. */
  ghost predicate Spaced(cfg: Config, events: seq<Event>, id: OrderId, at: seq<nat>) {
    && (forall j :: 0 <= j < |at| ==> at[j] < |events| && events[at[j]].Failed? && events[at[j]].id == id)
    && (forall j :: 0 < j < |at| ==>
         at[j - 1] < at[j] && events[at[j - 1]].now + cfg.spacing <= events[at[j]].now)
  }

  /** The attempts an entry counts, as the failures they rest on. */
  ghost predicate RestsOn(cfg: Config, e: Entry, events: seq<Event>, id: OrderId, at: seq<nat>) {
    && 1 <= e.attempts == |at| <= cfg.max
    && Spaced(cfg, events, id, at) && events[at[|at| - 1]].now == e.last
  }

  lemma StillRestsOn(cfg: Config, e: Entry, events: seq<Event>, id: OrderId, at: seq<nat>)
    requires events != [] && RestsOn(cfg, e, events[..|events| - 1], id, at)
    ensures RestsOn(cfg, e, events, id, at)
  {
  }

  lemma OneMoreAttempt(cfg: Config, e: Entry, e': Entry, events: seq<Event>, id: OrderId, at: seq<nat>)
    requires events != [] && RestsOn(cfg, e, events[..|events| - 1], id, at)
    requires var last := events[|events| - 1];
             last.Failed? && last.id == id && e'.last == last.now && e.last + cfg.spacing <= last.now
    requires e'.attempts == e.attempts + 1 <= cfg.max
    ensures RestsOn(cfg, e', events, id, at + [|events| - 1])
  {
  }

  /**
    In every run, whatever was pruned, rejected or reached in it, an entry that counts `n` attempts
    rests on `n` failures of its order, one spacing apart, of which the last set its time.
   */
  lemma {:induction false} AttemptsRestOnFailures(cfg: Config, table: Table, events: seq<Event>, id: OrderId)
    returns (at: seq<nat>)
    requires id !in table && id in After(cfg, table, events)
    ensures RestsOn(cfg, After(cfg, table, events)[id], events, id, at)
  {
    var n := |events| - 1;
    var before, e := After(cfg, table, events[..n]), events[n];
    var entry := After(cfg, table, events)[id];
    if e.Failed? && e.id == id && id !in Pruned(before, e.now) {
      at := [n];
    } else {
      at := AttemptsRestOnFailures(cfg, table, events[..n], id);
      if entry == before[id] {
        StillRestsOn(cfg, entry, events, id, at);
      } else {
        OneMoreAttempt(cfg, before[id], entry, events, id, at);
        at := at + [n];
      }
    }
  }

  // ---------------------------------------------------------------- one failed round, exactly

  /** What is left of an entry when a round fails: nothing, if the table was pruned and the entry is two hours old. */
  function Remembered(table: Table, id: OrderId, now: real): Entry {
    if id in table && (|table| <= 256 || now - table[id].last < 7200.0) then table[id] else Entry(0, 0.0)
  }

  /**
    Whether a failed round requeues its order. It does exactly if the deadline, where there is
    one, is more than a minute away, and the order still has attempts, or failed less than a
    spacing ago.
   */
  lemma RequeuedExactlyIf(cfg: Config, table: Table, id: OrderId, deadline: real, now: real)
    ensures var e := Remembered(table, id, now);
            DecisionOf(cfg, table, id, deadline, now).Requeue? <==>
              && (deadline > 0.0 ==> deadline - now > 60.0)
              && (e.attempts < cfg.max || (e.attempts > 0 && now - e.last < cfg.spacing))
  {
  }

  /** A failed round counts one attempt exactly if it requeues the order and is not within the spacing; a rejection forgets it. */
  lemma CountedExactlyIf(cfg: Config, table: Table, id: OrderId, deadline: real, now: real)
    ensures var e, t := Remembered(table, id, now), TableAfter(cfg, table, id, deadline, now);
            var requeued := DecisionOf(cfg, table, id, deadline, now).Requeue?;
            && (id in t ==>
                 requeued && t[id] == if e.attempts > 0 && now - e.last < cfg.spacing then e else Entry(e.attempts + 1, now))
            && (requeued && e.attempts == 0 ==> id in t)
            && (requeued && id in table && table[id] == e ==> id in t)
            && forall other :: other != id ==>
                 (other in t <==> other in table && (|table| <= 256 || now - table[other].last < 7200.0))
                 && (other in t ==> t[other] == table[other])
  {
  }
}
