/**
  Delegated staking under a permission policy: the check of one request against past records,
  its execution, and what the policy guarantees over whole runs.
 */
module DelegatedStaking {
  import opened Wrappers

  datatype Action = AddStake | MoveStake | RemoveStake

  datatype PermissionStatus = Dormant | Active | Disabled | Revoked | Lapsed

  datatype Permission = Permission(
    id: string,
    owner: string,
    delegate: string,
    status: PermissionStatus,
    actions: seq<Action>,
    netuids: seq<int>,           // empty: every subnet
    hotkeys: seq<string>,        // empty: every validator
    maxPerAction: Option<int>,
    maxPerDay: Option<int>,
    cooldown: Option<int>,
    expiresAt: Option<real>)

  datatype Request = Request(
    permission: string,
    action: Action,
    owner: string,
    delegate: string,
    amount: int,
    netuid: Option<int>,
    hotkey: string,
    originNetuid: Option<int>,
    originHotkey: string,
    destinationNetuid: Option<int>,
    destinationHotkey: string)

  datatype Status = Pending | Rejected | Submitted | Confirmed | Failed

  datatype Record = Record(permission: string, amount: int, status: Status, submittedAt: real)

  const DAY: real := 86400.0

  // ---------------------------------------------------------------- one request

  /** Records that count against cooldown and daily cap. */
  predicate Counts(p: Permission, r: Record) {
    r.permission == p.id && (r.status.Submitted? || r.status.Confirmed?)
  }

  function Counted(p: Permission, records: seq<Record>): seq<Record> {
    if records == [] then []
    else
      var rest := Counted(p, records[..|records| - 1]);
      var last := records[|records| - 1];
      if Counts(p, last) then rest + [last] else rest
  }

  /** The latest submission time, 0 if there is none. */
  function LastSubmission(records: seq<Record>): real {
    if records == [] then 0.0
    else if |records| == 1 then records[0].submittedAt
    else
      var rest := LastSubmission(records[..|records| - 1]);
      var last := records[|records| - 1].submittedAt;
      if last > rest then last else rest
  }

  function TotalSince(records: seq<Record>, start: real): int {
    if records == [] then 0
    else
      var rest := TotalSince(records[..|records| - 1], start);
      var last := records[|records| - 1];
      if last.submittedAt >= start then rest + last.amount else rest
  }

  predicate Complete(q: Request) {
    match q.action
    case AddStake => q.netuid.Some? && q.hotkey != ""
    case MoveStake =>
      q.originNetuid.Some? && q.destinationNetuid.Some? && q.originHotkey != "" && q.destinationHotkey != ""
    case RemoveStake => q.netuid.Some? && q.hotkey != ""
  }

  predicate NetuidsAllowed(p: Permission, q: Request) {
    p.netuids == [] || forall n :: n in [q.netuid, q.originNetuid, q.destinationNetuid] && n.Some? ==> n.value in p.netuids
  }

  predicate HotkeysAllowed(p: Permission, q: Request) {
    p.hotkeys == [] || forall h :: h in [q.hotkey, q.originHotkey, q.destinationHotkey] && h != "" ==> h in p.hotkeys
  }

  datatype Refusal =
    | PermissionMismatch | OwnerMismatch | DelegateMismatch | NotActive | Expired | AmountNotPositive
    | ActionNotAllowed | Incomplete | OverActionCap | NetuidNotAllowed | HotkeyNotAllowed
    | CoolingDown | OverDailyCap

  function ValidateRequest(p: Permission, q: Request, recent: seq<Record>, now: real): Option<Refusal> {
    if p.id != q.permission then Some(PermissionMismatch)
    else if q.owner != p.owner then Some(OwnerMismatch)
    else if q.delegate != p.delegate then Some(DelegateMismatch)
    else if p.status != Active then Some(NotActive)
    else if p.expiresAt.Some? && now > p.expiresAt.value then Some(Expired)
    else if q.amount <= 0 then Some(AmountNotPositive)
    else if q.action !in p.actions then Some(ActionNotAllowed)
    else if !Complete(q) then Some(Incomplete)
    else if p.maxPerAction.Some? && q.amount > p.maxPerAction.value then Some(OverActionCap)
    else if !NetuidsAllowed(p, q) then Some(NetuidNotAllowed)
    else if !HotkeysAllowed(p, q) then Some(HotkeyNotAllowed)
    else
      var records := Counted(p, recent);
      if p.cooldown.Some? && p.cooldown.value != 0
         && LastSubmission(records) != 0.0
         && LastSubmission(records) > now - p.cooldown.value as real
      then Some(CoolingDown)
      else if p.maxPerDay.Some? && TotalSince(records, now - DAY) + q.amount > p.maxPerDay.value
      then Some(OverDailyCap)
      else None
  }

  // ---------------------------------------------------------------- execution

  /** What the outside answers while a request is executed. */
  datatype Attempt = Attempt(
    now: real,                 // the clock when the request is checked
    proxyValid: bool,          // the proxy relationship stands on chain
    prepared: bool,            // wallet loaded, call composed and hashed
    submittedAt: real,         // the clock at submission
    response: Outcome<bool>)   // did the extrinsic succeed?

  class BittensorProxyExecutor {
    constructor () {}

    method ExecuteRequest(p: Permission, q: Request, recent: seq<Record>, attempt: Attempt) returns (record: Record)
      ensures record == RecordOf(p, q, recent, attempt)
    {
      record := Record(q.permission, q.amount, Pending, 0.0);
      var refusal := ValidateRequest(p, q, recent, attempt.now);
      if refusal.Some? {
        record := record.(status := Rejected);
        return;
      }
      if !attempt.proxyValid {
        record := record.(status := Rejected);
        return;
      }
      if !attempt.prepared {
        record := record.(status := Failed);
        return;
      }
      record := record.(status := Submitted);
      record := record.(submittedAt := attempt.submittedAt);
      if attempt.response.Raised? {
        record := record.(status := Failed);
      } else if attempt.response.value {
        record := record.(status := Confirmed);
      } else {
        record := record.(status := Failed);
      }
    }
  }

  /** The request passes the policy, the proxy stands, and the extrinsic succeeds. */
  predicate Succeeds(p: Permission, q: Request, recent: seq<Record>, attempt: Attempt) {
    && ValidateRequest(p, q, recent, attempt.now).None?
    && attempt.proxyValid && attempt.prepared && attempt.response == Returned(true)
  }

  function RecordOf(p: Permission, q: Request, recent: seq<Record>, attempt: Attempt): Record {
    var reached := ValidateRequest(p, q, recent, attempt.now).None? && attempt.proxyValid;
    Record(q.permission, q.amount,
           if !reached then Rejected else if Succeeds(p, q, recent, attempt) then Confirmed else Failed,
           if reached && attempt.prepared then attempt.submittedAt else 0.0)
  }

  // ---------------------------------------------------------------- whole runs

  /** One request, with the past records the caller hands over. */
  datatype Call = Call(permission: Permission, request: Request, recent: seq<Record>, attempt: Attempt)

  function ResultOf(c: Call): Record {
    RecordOf(c.permission, c.request, c.recent, c.attempt)
  }

  /** The records that a run of calls leaves. */
  function Records(calls: seq<Call>): (records: seq<Record>)
    ensures |records| == |calls|
    ensures forall i :: 0 <= i < |calls| ==> records[i] == ResultOf(calls[i])
  {
    if calls == [] then [] else Records(calls[..|calls| - 1]) + [ResultOf(calls[|calls| - 1])]
  }

  /** One permission per name, and no clock that runs backwards between check and submission. */
  predicate WellRun(p: Permission, calls: seq<Call>) {
    forall c :: c in calls ==>
      && (c.permission.id == p.id ==> c.permission == p)
      && c.attempt.now <= c.attempt.submittedAt
  }

  predicate Spends(p: Permission, r: Record, from: real, to: real) {
    r.permission == p.id && r.status.Confirmed? && from <= r.submittedAt <= to
  }

  /** Confirmed amounts with a submission time in a closed interval. */
  function Spent(p: Permission, records: seq<Record>, from: real, to: real): int {
    if records == [] then 0
    else
      var rest := Spent(p, records[..|records| - 1], from, to);
      var last := records[|records| - 1];
      if Spends(p, last, from, to) then rest + last.amount else rest
  }

  lemma {:induction false} CountedAreRecords(p: Permission, records: seq<Record>)
    ensures forall r :: r in Counted(p, records) <==> r in records && Counts(p, r)
  {
    if records != [] {
      var init := records[..|records| - 1];
      CountedAreRecords(p, init);
      assert records == init + [records[|records| - 1]];
    }
  }

  lemma {:induction false} NothingLater(records: seq<Record>, r: Record)
    requires r in records
    ensures r.submittedAt <= LastSubmission(records)
  {
    if |records| > 1 {
      var init := records[..|records| - 1];
      assert records == init + [records[|records| - 1]];
      if r in init {
        NothingLater(init, r);
      }
    }
  }

  lemma {:induction false} SomeoneIsLast(records: seq<Record>)
    requires records != []
    ensures exists r :: r in records && r.submittedAt == LastSubmission(records)
  {
    if |records| == 1 {
      assert records[0] in records;
    } else {
      var n := |records| - 1;
      SomeoneIsLast(records[..n]);
      var r :| r in records[..n] && r.submittedAt == LastSubmission(records[..n]);
      assert r in records && records[n] in records;
    }
  }

  predicate Positive(records: seq<Record>) {
    forall r :: r in records && r.status.Confirmed? ==> r.amount > 0
  }

  /** A run records success only with a positive amount, and never leaves a record half-way. */
  lemma {:induction false} RecordsOfARun(calls: seq<Call>)
    ensures Positive(Records(calls))
    ensures forall r :: r in Records(calls) ==> r.status in {Rejected, Confirmed, Failed}
  {
    forall r | r in Records(calls) && r.status.Confirmed? ensures r.amount > 0 {
      var i :| 0 <= i < |calls| && r == ResultOf(calls[i]);
      AcceptedWithinLimits(calls[i].permission, calls[i].request, calls[i].recent, calls[i].attempt.now);
    }
  }

  /** Confirmed amounts from some time on. */
  function SpentSince(p: Permission, records: seq<Record>, start: real): int {
    if records == [] then 0
    else
      var rest := SpentSince(p, records[..|records| - 1], start);
      var last := records[|records| - 1];
      if last.permission == p.id && last.status.Confirmed? && last.submittedAt >= start then rest + last.amount else rest
  }

  lemma {:induction false} IntervalIsSince(p: Permission, records: seq<Record>, start: real, from: real, to: real)
    requires start <= from && Positive(records)
    ensures Spent(p, records, from, to) <= SpentSince(p, records, start)
  {
    if records != [] {
      var n := |records| - 1;
      assert records[n] in records;
      IntervalIsSince(p, records[..n], start, from, to);
    }
  }

  /** What an accepted request says about the records it was checked against. */
  lemma AcceptedWithinLimits(p: Permission, q: Request, recent: seq<Record>, now: real)
    requires ValidateRequest(p, q, recent, now).None?
    ensures q.permission == p.id && q.amount > 0
    ensures p.maxPerDay.Some? ==> TotalSince(Counted(p, recent), now - DAY) + q.amount <= p.maxPerDay.value
    ensures p.cooldown.Some? && p.cooldown.value != 0 && LastSubmission(Counted(p, recent)) != 0.0 ==>
              LastSubmission(Counted(p, recent)) <= now - p.cooldown.value as real
  {
  }

  /** A success is under the permission that was checked. */
  lemma ConfirmedWasAccepted(p: Permission, calls: seq<Call>, i: nat)
    requires WellRun(p, calls) && i < |calls|
    requires Records(calls)[i].permission == p.id && Records(calls)[i].status.Confirmed?
    ensures var c := calls[i];
            && c.permission == p
            && ValidateRequest(p, c.request, c.recent, c.attempt.now).None?
            && Records(calls)[i] == Record(p.id, c.request.amount, Confirmed, c.attempt.submittedAt)
            && c.attempt.now <= c.attempt.submittedAt
  {
    var c := calls[i];
    assert c in calls;
    AcceptedWithinLimits(c.permission, c.request, c.recent, c.attempt.now);
  }

  /** Everything the policy says about one action, read off the permission. */
  predicate WithinPermission(p: Permission, q: Request, now: real) {
    && q.permission == p.id && q.owner == p.owner && q.delegate == p.delegate
    && p.status == Active && (p.expiresAt.Some? ==> now <= p.expiresAt.value)
    && q.action in p.actions && q.amount > 0 && (p.maxPerAction.Some? ==> q.amount <= p.maxPerAction.value)
    && (p.netuids != [] ==>
         (q.netuid.Some? ==> q.netuid.value in p.netuids)
         && (q.originNetuid.Some? ==> q.originNetuid.value in p.netuids)
         && (q.destinationNetuid.Some? ==> q.destinationNetuid.value in p.netuids))
    && (p.hotkeys != [] ==>
         (q.hotkey != "" ==> q.hotkey in p.hotkeys)
         && (q.originHotkey != "" ==> q.originHotkey in p.hotkeys)
         && (q.destinationHotkey != "" ==> q.destinationHotkey in p.hotkeys))
    && (q.action.MoveStake? ==>
         q.originNetuid.Some? && q.destinationNetuid.Some? && q.originHotkey != "" && q.destinationHotkey != "")
    && (!q.action.MoveStake? ==> q.netuid.Some? && q.hotkey != "")
  }

  lemma NetuidsAreWithin(p: Permission, q: Request)
    ensures NetuidsAllowed(p, q) <==>
            (p.netuids != [] ==>
              (q.netuid.Some? ==> q.netuid.value in p.netuids)
              && (q.originNetuid.Some? ==> q.originNetuid.value in p.netuids)
              && (q.destinationNetuid.Some? ==> q.destinationNetuid.value in p.netuids))
  {
    var all := [q.netuid, q.originNetuid, q.destinationNetuid];
    assert q.netuid in all && q.originNetuid in all && q.destinationNetuid in all;
  }

  lemma HotkeysAreWithin(p: Permission, q: Request)
    ensures HotkeysAllowed(p, q) <==>
            (p.hotkeys != [] ==>
              (q.hotkey != "" ==> q.hotkey in p.hotkeys)
              && (q.originHotkey != "" ==> q.originHotkey in p.hotkeys)
              && (q.destinationHotkey != "" ==> q.destinationHotkey in p.hotkeys))
  {
    var all := [q.hotkey, q.originHotkey, q.destinationHotkey];
    assert q.hotkey in all && q.originHotkey in all && q.destinationHotkey in all;
  }

  /** What the records under a permission say was sent, or is under way, from some time on. */
  function SentSince(p: Permission, recent: seq<Record>, start: real): int {
    if recent == [] then 0
    else
      var r := recent[0];
      (if r.permission == p.id && r.status in {Submitted, Confirmed} && r.submittedAt >= start then r.amount else 0)
      + SentSince(p, recent[1..], start)
  }

  lemma {:induction false} SentAdds(p: Permission, a: seq<Record>, b: seq<Record>, start: real)
    ensures SentSince(p, a + b, start) == SentSince(p, a, start) + SentSince(p, b, start)
  {
    if a == [] {
      assert a + b == b;
    } else {
      assert (a + b)[1..] == a[1..] + b;
      SentAdds(p, a[1..], b, start);
    }
  }

  lemma {:induction false} TotalIsSent(p: Permission, recent: seq<Record>, start: real)
    ensures TotalSince(Counted(p, recent), start) == SentSince(p, recent, start)
  {
    if recent != [] {
      var init, last := recent[..|recent| - 1], recent[|recent| - 1];
      assert recent == init + [last];
      TotalIsSent(p, init, start);
      SentAdds(p, init, [last], start);
      CountedMore(p, init, last, start);
      assert SentSince(p, [last][1..], start) == 0;
    }
  }

  /** The latest counted submission is at time zero, which stands for none. */
  ghost predicate LatestIsZero(p: Permission, recent: seq<Record>) {
    && (exists r :: r in recent && Counts(p, r) && r.submittedAt == 0.0)
    && forall r :: r in recent && Counts(p, r) ==> r.submittedAt <= 0.0
  }

  /** No counted submission is younger than the cooldown. */
  ghost predicate CooledDown(p: Permission, recent: seq<Record>, now: real) {
    p.cooldown.Some? && p.cooldown.value != 0 ==>
      || LatestIsZero(p, recent)
      || forall r :: r in recent && r.permission == p.id && r.status in {Submitted, Confirmed} ==>
                       r.submittedAt <= now - p.cooldown.value as real
  }

  /** The last 24 hours leave room for the amount. */
  predicate HasRoom(p: Permission, q: Request, recent: seq<Record>, now: real) {
    p.maxPerDay.Some? ==> SentSince(p, recent, now - 86400.0) + q.amount <= p.maxPerDay.value
  }

  /**
    A request is accepted exactly if it is within the permission, no counted submission is
    younger than the cooldown, and the day leaves room for it.
   */
  lemma AcceptedIff(p: Permission, q: Request, recent: seq<Record>, now: real)
    ensures ValidateRequest(p, q, recent, now).None? <==>
            WithinPermission(p, q, now) && CooledDown(p, recent, now) && HasRoom(p, q, recent, now)
  {
    NetuidsAreWithin(p, q);
    HotkeysAreWithin(p, q);
    TotalIsSent(p, recent, now - DAY);
    CoolsDown(p, recent, now);
    AcceptedInSteps(p, q, recent, now);
  }

  lemma CoolsDown(p: Permission, recent: seq<Record>, now: real)
    ensures p.cooldown.Some? && p.cooldown.value != 0 ==>
              (CooledDown(p, recent, now) <==>
                LastSubmission(Counted(p, recent)) == 0.0
                || LastSubmission(Counted(p, recent)) <= now - p.cooldown.value as real)
  {
    var records := Counted(p, recent);
    CountedAreRecords(p, recent);
    forall r | r in records ensures r.submittedAt <= LastSubmission(records) {
      NothingLater(records, r);
    }
    if records == [] {
      assert forall r :: r in recent ==> !Counts(p, r);
    } else {
      SomeoneIsLast(records);
    }
  }

  /** The checks of one request, taken apart. */
  lemma AcceptedInSteps(p: Permission, q: Request, recent: seq<Record>, now: real)
    ensures var last := LastSubmission(Counted(p, recent));
            ValidateRequest(p, q, recent, now).None? <==>
              && q.permission == p.id && q.owner == p.owner && q.delegate == p.delegate
              && p.status == Active && (p.expiresAt.Some? ==> now <= p.expiresAt.value)
              && q.amount > 0 && q.action in p.actions && Complete(q)
              && (p.maxPerAction.Some? ==> q.amount <= p.maxPerAction.value)
              && NetuidsAllowed(p, q) && HotkeysAllowed(p, q)
              && (p.cooldown.Some? && p.cooldown.value != 0 ==> last == 0.0 || last <= now - p.cooldown.value as real)
              && (p.maxPerDay.Some? ==> TotalSince(Counted(p, recent), now - DAY) + q.amount <= p.maxPerDay.value)
  {
  }

  lemma AcceptedIsPermitted(p: Permission, q: Request, recent: seq<Record>, now: real)
    requires ValidateRequest(p, q, recent, now).None?
    ensures WithinPermission(p, q, now)
  {
    NetuidsAreWithin(p, q);
    HotkeysAreWithin(p, q);
    AcceptedInSteps(p, q, recent, now);
  }

  /** The request keeps to its permission and to what its records say. */
  ghost predicate Acceptable(c: Call) {
    && WithinPermission(c.permission, c.request, c.attempt.now)
    && CooledDown(c.permission, c.recent, c.attempt.now) && HasRoom(c.permission, c.request, c.recent, c.attempt.now)
  }

  /**
    What becomes of a call. It is rejected exactly if it is not acceptable or the proxy does not
    stand, confirmed exactly if it is acceptable, the proxy stands, the call was prepared and the
    chain says it succeeded, and failed otherwise; it has a time exactly once it was prepared.
   */
  lemma ResultExactly(c: Call)
    ensures var r, go := ResultOf(c), Acceptable(c) && c.attempt.proxyValid;
            && r.permission == c.request.permission && r.amount == c.request.amount
            && (r.status.Rejected? <==> !go)
            && (r.status.Confirmed? <==> go && c.attempt.prepared && c.attempt.response == Returned(true))
            && (r.status.Failed? <==> go && !(c.attempt.prepared && c.attempt.response == Returned(true)))
            && r.submittedAt == (if go && c.attempt.prepared then c.attempt.submittedAt else 0.0)
  {
    AcceptedIff(c.permission, c.request, c.recent, c.attempt.now);
  }

  /** Whatever was submitted to the chain stayed within the permission it was checked against. */
  lemma SubmittedWasPermitted(c: Call)
    requires !ResultOf(c).status.Rejected?
    ensures WithinPermission(c.permission, c.request, c.attempt.now)
    ensures c.attempt.proxyValid
    ensures ResultOf(c).permission == c.permission.id && ResultOf(c).amount == c.request.amount
  {
    AcceptedIsPermitted(c.permission, c.request, c.recent, c.attempt.now);
  }

  /** The records handed to a call count at least what was confirmed in the day before it. */
  predicate DayTold(p: Permission, past: seq<Record>, c: Call) {
    c.permission.id == p.id ==>
      SpentSince(p, past, c.attempt.now - DAY) <= TotalSince(Counted(p, c.recent), c.attempt.now - DAY)
  }

  ghost predicate DaysTold(p: Permission, calls: seq<Call>) {
    forall i {:trigger calls[..i]} :: 0 <= i < |calls| ==> DayTold(p, Records(calls[..i]), calls[i])
  }

  predicate IsSuccess(p: Permission, r: Record) { r.permission == p.id && r.status.Confirmed? }

  /** Of any success of the last cooldown, the handed-over records show one as recent. */
  ghost predicate CooldownTold(p: Permission, past: seq<Record>, c: Call)
    requires p.cooldown.Some?
  {
    c.permission.id == p.id ==>
      forall r :: r in past && IsSuccess(p, r) && r.submittedAt > c.attempt.now - p.cooldown.value as real ==>
                    exists q :: q in c.recent && Counts(p, q) && r.submittedAt <= q.submittedAt
  }

  /** One more success, checked against enough of the past, fits into every window it falls in. */
  lemma SuccessFits(p: Permission, past: seq<Record>, c: Call, from: real)
    requires p.maxPerDay.Some? && c.permission == p && c.attempt.now <= c.attempt.submittedAt
    requires ValidateRequest(p, c.request, c.recent, c.attempt.now).None? && DayTold(p, past, c)
    requires Positive(past) && c.attempt.submittedAt <= from + DAY
    ensures Spent(p, past, from, from + DAY) + c.request.amount <= p.maxPerDay.value
  {
    AcceptedWithinLimits(p, c.request, c.recent, c.attempt.now);
    IntervalIsSince(p, past, c.attempt.now - DAY, from, from + DAY);
  }

  /** In a run whose calls are told of their last day, no 24-hour window spends more than the daily cap. */
  lemma {:induction false} DailyCapHolds(p: Permission, calls: seq<Call>, from: real)
    requires WellRun(p, calls) && p.maxPerDay.Some? && DaysTold(p, calls)
    ensures Spent(p, Records(calls), from, from + DAY) <= if p.maxPerDay.value > 0 then p.maxPerDay.value else 0
  {
    if calls != [] {
      var n := |calls| - 1;
      BeforeIsTold(p, calls, n);
      DailyCapHolds(p, calls[..n], from);
      assert Records(calls)[..n] == Records(calls[..n]);
      if Spends(p, Records(calls)[n], from, from + DAY) {
        ConfirmedWasAccepted(p, calls, n);
        RecordsOfARun(calls[..n]);
        SuccessFits(p, Records(calls[..n]), calls[n], from);
      }
    }
  }

  lemma BeforeIsTold(p: Permission, calls: seq<Call>, n: nat)
    requires n == |calls| - 1 && DaysTold(p, calls)
    ensures DaysTold(p, calls[..n]) && DayTold(p, Records(calls[..n]), calls[n])
  {
    forall i | 0 <= i < n ensures DayTold(p, Records(calls[..n][..i]), calls[..n][i]) {
      assert calls[..n][..i] == calls[..i];
    }
  }

  /** The outside lets a call succeed at the very time it is checked. */
  predicate SucceedsAtOnce(c: Call) {
    && c.attempt.proxyValid && c.attempt.prepared && c.attempt.response == Returned(true)
    && c.attempt.submittedAt == c.attempt.now
  }

  lemma {:induction false} AllSpentSince(p: Permission, records: seq<Record>, start: real, now: real)
    requires forall r :: r in records && IsSuccess(p, r) ==> r.submittedAt <= now
    ensures Spent(p, records, start, now) == SpentSince(p, records, start)
  {
    if records != [] {
      var n := |records| - 1;
      assert records[n] in records;
      AllSpentSince(p, records[..n], start, now);
    }
  }

  /**
    What an untold call can do. Of the requests that pass every check but the daily cap, the next
    one is accepted and exceeds the cap exactly if its amount fits into the room that the records
    handed over leave, and not into the room that is left. So there is one exactly if the records
    handed over count less than what was confirmed in the last day.
   */
  lemma UntoldCallsBreakTheCap(p: Permission, past: seq<Record>, c: Call)
    requires p.maxPerDay.Some? && c.permission == p && SucceedsAtOnce(c)
    requires ValidateRequest(p.(maxPerDay := None), c.request, c.recent, c.attempt.now).None?
    requires forall r :: r in past && IsSuccess(p, r) ==> r.submittedAt <= c.attempt.now
    ensures var start := c.attempt.now - DAY;
            var told, spent := TotalSince(Counted(p, c.recent), start), SpentSince(p, past, start);
            && (ResultOf(c).status.Confirmed? && Spent(p, past + [ResultOf(c)], start, c.attempt.now) > p.maxPerDay.value <==>
                p.maxPerDay.value - spent < c.request.amount <= p.maxPerDay.value - told)
            && (told < spent <==> !DayTold(p, past, c))
  {
    AcceptedIfRoom(p, c);
    SpentAfter(p, past, ResultOf(c), c.attempt.now);
    RoomsDiffer(p.maxPerDay.value, TotalSince(Counted(p, c.recent), c.attempt.now - DAY),
                SpentSince(p, past, c.attempt.now - DAY), c.request.amount, ResultOf(c).status.Confirmed?,
                Spent(p, past + [ResultOf(c)], c.attempt.now - DAY, c.attempt.now));
  }

  lemma RoomsDiffer(cap: int, told: int, spent: int, amount: int, accepted: bool, after: int)
    requires accepted <==> told + amount <= cap
    requires accepted ==> after == spent + amount
    ensures accepted && after > cap <==> cap - spent < amount <= cap - told
  {
  }

  lemma AcceptedIfRoom(p: Permission, c: Call)
    requires p.maxPerDay.Some? && c.permission == p && SucceedsAtOnce(c)
    requires ValidateRequest(p.(maxPerDay := None), c.request, c.recent, c.attempt.now).None?
    ensures ResultOf(c).status.Confirmed? <==>
            TotalSince(Counted(p, c.recent), c.attempt.now - DAY) + c.request.amount <= p.maxPerDay.value
    ensures ResultOf(c).permission == p.id && ResultOf(c).amount == c.request.amount
    ensures ResultOf(c).status.Confirmed? ==> ResultOf(c).submittedAt == c.attempt.now
  {
    OnlyTheCapIsLeft(p, c.request, c.recent, c.attempt.now);
  }

  lemma OnlyTheCapIsLeft(p: Permission, q: Request, recent: seq<Record>, now: real)
    requires p.maxPerDay.Some? && ValidateRequest(p.(maxPerDay := None), q, recent, now).None?
    ensures ValidateRequest(p, q, recent, now).None? <==>
            TotalSince(Counted(p, recent), now - DAY) + q.amount <= p.maxPerDay.value
    ensures q.permission == p.id
  {
    SameRecordsCount(p, recent);
  }

  lemma SpentAfter(p: Permission, past: seq<Record>, r: Record, now: real)
    requires forall q :: q in past && IsSuccess(p, q) ==> q.submittedAt <= now
    requires IsSuccess(p, r) ==> r.submittedAt == now
    ensures Spent(p, past + [r], now - DAY, now) == SpentSince(p, past, now - DAY) + if IsSuccess(p, r) then r.amount else 0
  {
    AllSpentSince(p, past, now - DAY, now);
    assert (past + [r])[..|past|] == past;
  }

  /** Which records count does not depend on the cap. */
  lemma {:induction false} SameRecordsCount(p: Permission, records: seq<Record>)
    ensures Counted(p.(maxPerDay := None), records) == Counted(p, records)
  {
    if records != [] { SameRecordsCount(p, records[..|records| - 1]); }
  }

  /** In a run told of its cooldowns, successes under one permission are at least the cooldown apart. */
  lemma CooldownHolds(p: Permission, calls: seq<Call>, i: nat, j: nat)
    requires WellRun(p, calls) && p.cooldown.Some? && p.cooldown.value != 0
    requires i < j < |calls| && CooldownTold(p, Records(calls[..j]), calls[j])
    requires IsSuccess(p, ResultOf(calls[i])) && IsSuccess(p, ResultOf(calls[j]))
    requires ResultOf(calls[i]).submittedAt > 0.0
    ensures ResultOf(calls[j]).submittedAt - ResultOf(calls[i]).submittedAt >= p.cooldown.value as real
  {
    var r, c := ResultOf(calls[i]), calls[j];
    ConfirmedWasAccepted(p, calls, j);
    AcceptedWithinLimits(p, c.request, c.recent, c.attempt.now);
    assert Records(calls[..j])[i] == r && r in Records(calls[..j]);
    if r.submittedAt > c.attempt.now - p.cooldown.value as real {
      var q :| q in c.recent && Counts(p, q) && r.submittedAt <= q.submittedAt;
      CountedAreRecords(p, c.recent);
      NothingLater(Counted(p, c.recent), q);
      assert false;
    }
  }

  // ---------------------------------------------------------------- what must be handed over

  function Kept(records: seq<Record>, keep: Record -> bool): (kept: seq<Record>)
    ensures forall r :: r in kept <==> r in records && keep(r)
  {
    if records == [] then []
    else
      var rest, last := Kept(records[..|records| - 1], keep), records[|records| - 1];
      assert records == records[..|records| - 1] + [last];
      if keep(last) then rest + [last] else rest
  }

  /** Records may be dropped once they are out of the day and out of the cooldown. */
  ghost predicate KeepsRecent(p: Permission, keep: Record -> bool, now: real) {
    forall r: Record :: Counts(p, r) && StillMatters(p, r, now) ==> keep(r)
  }

  predicate StillMatters(p: Permission, r: Record, now: real) {
    r.submittedAt >= now - DAY || (p.cooldown.Some? && r.submittedAt > now - p.cooldown.value as real)
  }

  /** A call is told enough by its history, pruned or not, as long as recent records are kept. */
  lemma PrunedHistoryTells(p: Permission, calls: seq<Call>, i: nat, keep: Record -> bool)
    requires i < |calls| && calls[i].recent == Kept(Records(calls[..i]), keep)
    requires KeepsRecent(p, keep, calls[i].attempt.now)
    ensures DayTold(p, Records(calls[..i]), calls[i])
    ensures p.cooldown.Some? ==> CooldownTold(p, Records(calls[..i]), calls[i])
  {
    var past := Records(calls[..i]);
    RecordsOfARun(calls[..i]);
    KeptCoversDay(p, past, keep, calls[i].attempt.now - DAY);
  }

  lemma {:induction false} KeptCoversDay(p: Permission, records: seq<Record>, keep: Record -> bool, start: real)
    requires forall r: Record :: Counts(p, r) && r.submittedAt >= start ==> keep(r)
    requires Positive(records) && forall r :: r in records ==> r.status in {Rejected, Confirmed, Failed}
    ensures SpentSince(p, records, start) <= TotalSince(Counted(p, Kept(records, keep)), start)
  {
    if records != [] {
      var n := |records| - 1;
      var before, last := records[..n], records[n];
      assert last in records;
      KeptCoversDay(p, before, keep, start);
      if keep(last) {
        CountedMore(p, Kept(before, keep), last, start);
      }
    }
  }

  lemma CountedMore(p: Permission, records: seq<Record>, last: Record, start: real)
    ensures TotalSince(Counted(p, records + [last]), start) == TotalSince(Counted(p, records), start) +
            if Counts(p, last) && last.submittedAt >= start then last.amount else 0
  {
    assert (records + [last])[..|records|] == records;
    if Counts(p, last) {
      var counted := Counted(p, records);
      assert (counted + [last])[..|counted|] == counted;
    }
  }

  /**
    The policy depends on the records it is given: handed the same ones again, or none, a request
    that succeeds once succeeds any number of times at one instant, whatever cooldown and daily cap.
   */
  lemma {:induction false} WithoutHistoryNothingAccumulates(c: Call, times: nat)
    requires Succeeds(c.permission, c.request, c.recent, c.attempt)
    ensures Spent(c.permission, Records(Repeated(c, times)), c.attempt.submittedAt, c.attempt.submittedAt)
            == times * c.request.amount
  {
    AcceptedWithinLimits(c.permission, c.request, c.recent, c.attempt.now);
    RepeatedRecords(c, times);
    RepeatsSpend(c.permission, ResultOf(c), c.attempt.submittedAt, times);
    TotalIsProduct(times, c.request.amount);
  }

  /** `times` amounts, by repeated addition. */
  function Total(times: nat, amount: int): int {
    if times == 0 then 0 else Total(times - 1, amount) + amount
  }

  lemma {:induction false} TotalIsProduct(times: nat, amount: int)
    ensures Total(times, amount) == times * amount
  {
    if times > 0 {
      TotalIsProduct(times - 1, amount);
      assert (times - 1) * amount + amount == times * amount;
    }
  }

  /** The same record, any number of times. */
  function Repeats(r: Record, times: nat): seq<Record> {
    if times == 0 then [] else Repeats(r, times - 1) + [r]
  }

  lemma {:induction false} RepeatedRecords(c: Call, times: nat)
    ensures Records(Repeated(c, times)) == Repeats(ResultOf(c), times)
  {
    if times > 0 {
      RepeatedRecords(c, times - 1);
      assert Repeated(c, times)[..times - 1] == Repeated(c, times - 1);
    }
  }

  lemma {:induction false} RepeatsSpend(p: Permission, r: Record, t: real, times: nat)
    requires r.permission == p.id && r.status == Confirmed && r.submittedAt == t
    ensures Spent(p, Repeats(r, times), t, t) == Total(times, r.amount)
  {
    if times > 0 {
      RepeatsSpend(p, r, t, times - 1);
      SpentMore(p, Repeats(r, times - 1), r, t);
    }
  }

  lemma SpentMore(p: Permission, past: seq<Record>, r: Record, t: real)
    requires r.permission == p.id && r.status == Confirmed && r.submittedAt == t
    ensures Spent(p, past + [r], t, t) == Spent(p, past, t, t) + r.amount
  {
    assert (past + [r])[..|past|] == past;
  }

  function Repeated(c: Call, times: nat): (calls: seq<Call>)
    ensures |calls| == times
  {
    if times == 0 then [] else Repeated(c, times - 1) + [c]
  }
}
