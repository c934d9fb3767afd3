/**
  The shared cache of app-registry lookups. A call looks into the cache under the lock, reads
  the registry without the lock, and stores the answer under the lock again; other calls may
  run in between.
 */
module RegistryCache {
  import opened Wrappers

  type Caller = nat

  /** A chain and a contract address in lower case. */
  datatype Key = Key(chain: int, contract: string)

  datatype Reply = NoRpc | CallFailed | Registered | Unregistered

  /** Anything but a clear "not registered" lets the app through. */
  predicate Verdict(r: Reply) {
    !r.Unregistered?
  }

  datatype Entry = Entry(expires: real, registered: bool)

  const TTL: real := 5.0

  type Cache = map<Key, Entry>

  /** A read of the registry, by the call that made it. */
  datatype Read = Read(caller: Caller, key: Key, begun: real, reply: Reply)

  /** What a call returned, with the clock it read when it began. */
  datatype Answer = Answer(caller: Caller, key: Key, begun: real, enforced: bool, value: bool)

  datatype Pending = Pending(key: Key, begun: real)

  datatype State = State(
    cache: Cache,
    pending: map<Caller, Pending>,
    log: seq<Read>,
    answers: seq<Answer>)

  /** The atomic steps of all callers, in the order in which they happen. */
  datatype Event =
    | Begin(caller: Caller, key: Key, now: real, enforced: bool)
    | Finish(caller: Caller, reply: Reply)
    | Clear

  // ---------------------------------------------------------------- the steps

  /** What a call finds when it looks into the cache: its answer, or nothing. */
  function Found(cache: Cache, key: Key, now: real): Option<bool> {
    if key in cache && cache[key].expires > now then Some(cache[key].registered) else None
  }

  function Stored(cache: Cache, key: Key, begun: real, reply: Reply): Cache {
    cache[key := Entry(begun + TTL, Verdict(reply))]
  }

  function Step(s: State, e: Event): State {
    match e
    case Begin(caller, key, now, enforced) =>
      if caller in s.pending then s   // a caller makes one call at a time
      else if key.contract == "" || !enforced then
        s.(answers := s.answers + [Answer(caller, key, now, false, true)])
      else
        (match Found(s.cache, key, now)
         case Some(value) => s.(answers := s.answers + [Answer(caller, key, now, true, value)])
         case None => s.(pending := s.pending[caller := Pending(key, now)]))
    case Finish(caller, reply) =>
      if caller !in s.pending then s
      else
        var p := s.pending[caller];
        State(Stored(s.cache, p.key, p.begun, reply), s.pending - {caller},
              s.log + [Read(caller, p.key, p.begun, reply)],
              s.answers + [Answer(caller, p.key, p.begun, true, Verdict(reply))])
    case Clear => s.(cache := map[])
  }

  function After(events: seq<Event>): State {
    if events == [] then State(map[], map[], [], [])
    else Step(After(events[..|events| - 1]), events[|events| - 1])
  }

  class AppRegistryCache {
    var cache: Cache
    ghost var log: seq<Read>

    /** Every entry repeats the answer of a read begun five seconds before it expires. */
    ghost predicate Valid()
      reads this
    {
      forall key :: key in cache ==> Backed(log, key, cache[key])
    }

    constructor ()
      ensures Valid() && cache == map[] && log == []
    {
      cache, log := map[], [];
    }

    /** The first half of a call: an answer, or the need to read the registry. */
    method Look(key: Key, now: real, enforced: bool) returns (answer: Option<bool>)
      requires Valid()
      ensures key.contract == "" || !enforced ==> answer == Some(true)
      ensures key.contract != "" && enforced ==>
                answer == if key in cache && now < cache[key].expires then Some(cache[key].registered) else None
      ensures key.contract != "" && enforced && answer.Some? ==>
                exists r :: r in log && r.key == key && Verdict(r.reply) == answer.value && now < r.begun + TTL
    {
      if key.contract == "" || !enforced {
        return Some(true);
      }
      if key in cache && cache[key].expires > now {
        return Some(cache[key].registered);
      }
      answer := None;
    }

    /** The second half of a call: what the read says is stored under the time the call began. */
    method Settle(ghost caller: Caller, key: Key, begun: real, reply: Reply) returns (registered: bool)
      requires Valid()
      modifies this
      ensures Valid()
      ensures registered == (reply != Unregistered)
      ensures cache == old(cache)[key := Entry(begun + 5.0, registered)]
      ensures log == old(log) + [Read(caller, key, begun, reply)]
    {
      BackedStays(log, Read(caller, key, begun, reply), cache);
      log := log + [Read(caller, key, begun, reply)];
      registered := reply != Unregistered;
      cache := cache[key := Entry(begun + TTL, registered)];
      assert log[|log| - 1] in log;
    }

    method ClearCache()
      requires Valid()
      modifies `cache
      ensures Valid() && cache == map[]
    {
      cache := map[];
    }
  }

  // ---------------------------------------------------------------- every interleaving

  ghost predicate Backed(log: seq<Read>, key: Key, e: Entry) {
    exists r :: r in log && r.key == key && Verdict(r.reply) == e.registered && e.expires == r.begun + TTL
  }

  lemma BackedStays(log: seq<Read>, r: Read, cache: Cache)
    requires forall key :: key in cache ==> Backed(log, key, cache[key])
    ensures forall key :: key in cache ==> Backed(log + [r], key, cache[key])
  {
    forall key | key in cache ensures Backed(log + [r], key, cache[key]) {
      var q :| q in log && q.key == key && Verdict(q.reply) == cache[key].registered
               && cache[key].expires == q.begun + TTL;
      assert q in log + [r];
    }
  }

  /** A read that justifies an answer: of this very call, or begun less than five seconds before the call. */
  predicate Explains(r: Read, a: Answer) {
    && r.key == a.key && Verdict(r.reply) == a.value
    && ((r.caller == a.caller && r.begun == a.begun) || a.begun < r.begun + TTL)
  }

  ghost predicate Justified(log: seq<Read>, a: Answer) {
    if !a.enforced then a.value else exists r :: r in log && Explains(r, a)
  }

  ghost predicate Sound(s: State) {
    && (forall key :: key in s.cache ==> Backed(s.log, key, s.cache[key]))
    && forall a :: a in s.answers ==> Justified(s.log, a)
  }

  lemma JustifiedStays(log: seq<Read>, r: Read, answers: seq<Answer>)
    requires forall a :: a in answers ==> Justified(log, a)
    ensures forall a :: a in answers ==> Justified(log + [r], a)
  {
    forall a | a in answers ensures Justified(log + [r], a) {
      if a.enforced {
        var q :| q in log && Explains(q, a);
        assert q in log + [r];
      }
    }
  }

  lemma StepIsSound(s: State, e: Event)
    requires Sound(s)
    ensures Sound(Step(s, e))
  {
    match e {
      case Begin(caller, key, now, enforced) =>
        if Found(s.cache, key, now).Some? {
          var r :| r in s.log && r.key == key && Verdict(r.reply) == s.cache[key].registered
                   && s.cache[key].expires == r.begun + TTL;
          assert Explains(r, Answer(caller, key, now, true, Found(s.cache, key, now).value));
        }
      case Finish(caller, reply) =>
        if caller in s.pending {
          var p := s.pending[caller];
          var r := Read(caller, p.key, p.begun, reply);
          BackedStays(s.log, r, s.cache);
          JustifiedStays(s.log, r, s.answers);
          assert r in s.log + [r] && Explains(r, Answer(caller, p.key, p.begun, true, Verdict(reply)));
        }
      case Clear =>
    }
  }

  lemma {:induction false} RunsAreSound(events: seq<Event>)
    ensures Sound(After(events))
  {
    if events != [] {
      RunsAreSound(events[..|events| - 1]);
      StepIsSound(After(events[..|events| - 1]), events[|events| - 1]);
    }
  }

  /**
    However callers interleave, an app is turned away only if the registry itself said "not
    registered", in a read of that call or one begun less than five seconds before it.
   */
  lemma RefusedOnlyByTheRegistry(events: seq<Event>, a: Answer)
    requires a in After(events).answers && !a.value
    ensures a.enforced
    ensures exists r :: r in After(events).log && Explains(r, a) && r.reply.Unregistered?
  {
    RunsAreSound(events);
    var r :| r in After(events).log && Explains(r, a);
    assert r.reply.Unregistered?;
  }

  /** An app is let through because nothing is enforced, or by a read of the same age that did not refuse it. */
  lemma AcceptedWithReason(events: seq<Event>, a: Answer)
    requires a in After(events).answers && a.value
    ensures !a.enforced || exists r :: r in After(events).log && Explains(r, a) && !r.reply.Unregistered?
  {
    RunsAreSound(events);
    if a.enforced {
      var r :| r in After(events).log && Explains(r, a);
      assert !r.reply.Unregistered?;
    }
  }

  lemma AfterMore(events: seq<Event>, e: Event)
    ensures After(events + [e]) == Step(After(events), e)
  {
    assert (events + [e])[..|events|] == events;
  }

  /**
    What each step of a call does. A call about no contract, or where nothing is enforced, is
    accepted; a fresh entry answers it; otherwise it reads the registry, and what that says is
    answered and kept for five seconds from the time the call began.
   */
  lemma StepsExactly(s: State, e: Event)
    ensures e.Begin? && e.caller !in s.pending ==>
              Step(s, e) ==
              if !e.enforced || e.key.contract == "" then
                s.(answers := s.answers + [Answer(e.caller, e.key, e.now, false, true)])
              else if e.key in s.cache && e.now < s.cache[e.key].expires then
                s.(answers := s.answers + [Answer(e.caller, e.key, e.now, true, s.cache[e.key].registered)])
              else s.(pending := s.pending[e.caller := Pending(e.key, e.now)])
    ensures e.Finish? && e.caller in s.pending ==>
              var p, registered := s.pending[e.caller], e.reply != Unregistered;
              && Step(s, e).cache == s.cache[p.key := Entry(p.begun + 5.0, registered)]
              && Step(s, e).pending == s.pending - {e.caller}
              && Step(s, e).answers == s.answers + [Answer(e.caller, p.key, p.begun, true, registered)]
    ensures e.Clear? ==> Step(s, e) == s.(cache := map[])
    ensures (e.Begin? && e.caller in s.pending) || (e.Finish? && e.caller !in s.pending) ==> Step(s, e) == s
  {
  }

  // ---------------------------------------------------------------- slow reads

  /** A read sets an entry back exactly if it began before the read the entry rests on. */
  lemma FinishGoesBack(s: State, caller: Caller, reply: Reply)
    requires caller in s.pending && s.pending[caller].key in s.cache
    ensures var key := s.pending[caller].key;
            Step(s, Finish(caller, reply)).cache[key].expires < s.cache[key].expires <==>
            s.pending[caller].begun + TTL < s.cache[key].expires
  {
  }

  /** The reads that were stored since the cache was last cleared. */
  function StoredReads(events: seq<Event>): seq<Read> {
    if events == [] then []
    else
      var before, e := events[..|events| - 1], events[|events| - 1];
      match e
      case Begin(_, _, _, _) => StoredReads(before)
      case Finish(caller, reply) =>
        if caller in After(before).pending then
          var p := After(before).pending[caller];
          StoredReads(before) + [Read(caller, p.key, p.begun, reply)]
        else StoredReads(before)
      case Clear => []
  }

  /** The latest read of a key. */
  function Latest(seen: seq<Read>, key: Key): Option<Read> {
    if seen == [] then None
    else if seen[|seen| - 1].key == key then Some(seen[|seen| - 1])
    else Latest(seen[..|seen| - 1], key)
  }

  /** Reads of one key are stored in the order in which they began. */
  predicate InOrder(seen: seq<Read>) {
    forall i, j :: 0 <= i < j < |seen| && seen[i].key == seen[j].key ==> seen[i].begun <= seen[j].begun
  }

  ghost predicate Kept(before: Cache, after: Cache) {
    forall key :: key in before && key in after ==> before[key].expires <= after[key].expires
  }

  /** No step of the run sets back an entry that it leaves in the cache. */
  ghost predicate NeverGoesBack(events: seq<Event>) {
    events != [] ==>
      var before := events[..|events| - 1];
      NeverGoesBack(before) && Kept(After(before).cache, After(events).cache)
  }

  /** At every point of the run, the reads stored since the last clear are in order. */
  ghost predicate AlwaysInOrder(events: seq<Event>) {
    InOrder(StoredReads(events)) && (events != [] ==> AlwaysInOrder(events[..|events| - 1]))
  }

  lemma LatestGrows(seen: seq<Read>, r: Read, key: Key)
    ensures Latest(seen + [r], key) == if r.key == key then Some(r) else Latest(seen, key)
  {
    assert (seen + [r])[..|seen|] == seen;
  }

  /** The cache holds, for each key, the read stored last. */
  lemma {:induction false} CacheHoldsLatest(events: seq<Event>, key: Key)
    ensures var latest := Latest(StoredReads(events), key);
            && (key in After(events).cache <==> latest.Some?)
            && (latest.Some? ==>
                 After(events).cache[key] == Entry(latest.value.begun + TTL, Verdict(latest.value.reply)))
  {
    if events != [] {
      var before, e := events[..|events| - 1], events[|events| - 1];
      CacheHoldsLatest(before, key);
      if e.Finish? && e.caller in After(before).pending {
        var p := After(before).pending[e.caller];
        LatestGrows(StoredReads(before), Read(e.caller, p.key, p.begun, e.reply), key);
      }
    }
  }

  lemma {:induction false} LatestIsLast(seen: seq<Read>, key: Key, i: nat)
    requires InOrder(seen) && i < |seen| && seen[i].key == key
    ensures Latest(seen, key).Some? && Latest(seen, key).value.key == key
    ensures seen[i].begun <= Latest(seen, key).value.begun
    ensures Latest(seen, key).value in seen
  {
    if seen[|seen| - 1].key != key { LatestIsLast(seen[..|seen| - 1], key, i); }
  }

  lemma {:induction false} LatestIsThere(seen: seq<Read>, key: Key) returns (i: nat)
    requires Latest(seen, key).Some?
    ensures i < |seen| && seen[i] == Latest(seen, key).value && seen[i].key == key
  {
    if seen[|seen| - 1].key == key { i := |seen| - 1; } else { i := LatestIsThere(seen[..|seen| - 1], key); }
  }

  /** One more read keeps the order exactly if it began no earlier than the latest one of its key. */
  lemma OneMoreInOrder(seen: seq<Read>, r: Read)
    requires InOrder(seen)
    ensures InOrder(seen + [r]) <==>
            (Latest(seen, r.key).Some? ==> Latest(seen, r.key).value.begun <= r.begun)
  {
    var all := seen + [r];
    if Latest(seen, r.key).Some? {
      var i := LatestIsThere(seen, r.key);
      assert all[i] == seen[i] && all[|seen|] == r;
      forall j | 0 <= j < |seen| && seen[j].key == r.key ensures seen[j].begun <= seen[i].begun {
        LatestIsLast(seen, r.key, j);
      }
    } else {
      forall j | 0 <= j < |seen| ensures seen[j].key != r.key {
        if seen[j].key == r.key { LatestIsLast(seen, r.key, j); }
      }
    }
  }

  /** One step, from reads that are in order. */
  lemma StepInOrder(before: seq<Event>, e: Event)
    requires InOrder(StoredReads(before))
    ensures InOrder(StoredReads(before + [e])) <==>
            Kept(After(before).cache, After(before + [e]).cache)
  {
    assert (before + [e])[..|before|] == before;
    if e.Finish? && e.caller in After(before).pending {
      var p := After(before).pending[e.caller];
      OneMoreInOrder(StoredReads(before), Read(e.caller, p.key, p.begun, e.reply));
      CacheHoldsLatest(before, p.key);
      assert forall key :: key != p.key && key in After(before).cache ==>
                             After(before + [e]).cache[key] == After(before).cache[key];
    }
  }

  /**
    When an older read overwrites a newer answer. In every run, no entry is ever set back exactly
    if, between two clears, the reads of each key are stored in the order in which they began.
   */
  lemma {:induction false} OrderlyReadsNeverGoBack(events: seq<Event>)
    ensures NeverGoesBack(events) <==> AlwaysInOrder(events)
  {
    if events != [] {
      var before, e := events[..|events| - 1], events[|events| - 1];
      OrderlyReadsNeverGoBack(before);
      assert before + [e] == events;
      if AlwaysInOrder(before) { StepInOrder(before, e); }
    }
  }

  /** Such a run exists: a slow read that began first overwrites the refusal that a faster one stored. */
  lemma SlowReadOverwrites(key: Key, a: real, b: real, now: real)
    requires key.contract != "" && a < b && b < now < a + TTL
    ensures var events := [Begin(0, key, a, true), Begin(1, key, b, true), Finish(1, Unregistered)];
            var refused, later := After(events), After(events + [Finish(0, Registered)]);
            && Found(refused.cache, key, now) == Some(false)
            && Found(later.cache, key, now) == Some(true)
  {
    var e0, e1, e2 := Begin(0, key, a, true), Begin(1, key, b, true), Finish(1, Unregistered);
    var s0 := After([]);
    var s1 := Step(s0, e0);
    var s2 := Step(s1, e1);
    assert s2.pending == map[0 := Pending(key, a), 1 := Pending(key, b)];
    AfterThree(e0, e1, e2);
    AfterMore([e0, e1, e2], Finish(0, Registered));
  }

  lemma AfterThree(a: Event, b: Event, c: Event)
    ensures After([a, b, c]) == Step(Step(Step(After([]), a), b), c)
  {
    assert [] + [a] == [a] && [a] + [b] == [a, b] && [a, b] + [c] == [a, b, c];
    AfterMore([], a);
    AfterMore([a], b);
    AfterMore([a, b], c);
  }
}
