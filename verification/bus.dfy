/** The swarm message bus: a table of messages, each with one delivery status
    (queued, leased, done, retry, dead). Every public operation of the bus is
    one atomic step over the table; the clock `now` is an explicit argument, so
    two workers racing for a message become two calls in sequence.

    The table is a sequence in insertion order. Timestamps are integers of one
    clock unit; the lease length is in the same unit. */
module Bus {
  import opened Results
  import opened Json
  import PyStr

  /** The seven message types the bus accepts. */
  const MessageTypes: seq<string> :=
    ["TASK_REQUEST", "TASK_ACCEPT", "TASK_UPDATE", "TASK_RESULT", "TASK_ERROR", "PING", "PONG"]

  datatype Status = Queued | Leased | Done | Retry | Dead

  function StatusName(st: Status): string {
    match st
    case Queued => "queued"
    case Leased => "leased"
    case Done => "done"
    case Retry => "retry"
    case Dead => "dead"
  }

  datatype Message = Message(
    id: string,
    traceId: string,
    threadId: string,
    fromAgent: string,
    toAgent: string,
    msgType: string,
    payload: Value,
    status: Status,
    attempt: int,
    leasedBy: Option<string>,
    leaseUntil: Option<int>,
    errorText: Option<string>,
    createdAt: int,
    updatedAt: int)

  type Store = seq<Message>

  /** The table's primary key: no two rows share an id. */
  predicate IdsUnique(s: Store) {
    forall i, j :: 0 <= i < j < |s| ==> s[i].id != s[j].id
  }

  predicate HasId(s: Store, id: string) {
    exists i :: 0 <= i < |s| && s[i].id == id
  }

  // ------------------------------------------------------------------ send

  /** `x or default` for an optional string argument. */
  function OrDefault(x: Option<string>, default: string): (r: string)
    ensures x.Some? && |x.value| > 0 ==> r == x.value
    ensures x.None? || |x.value| == 0 ==> r == default
  {
    if x.Some? && |x.value| > 0 then x.value else default
  }

  /** The payload as it is stored: a string payload is JSON text and is
      decoded once more, where `decoded` stands for what `json.loads` makes of
      that text (`None` when it raises JSONDecodeError); any other payload is
      stored as it is and `decoded` is not read. */
  function StoredPayload(payload: Value, decoded: Option<Value>): Option<Value> {
    if payload.Str? then decoded else Some(payload)
  }

  /** Enqueues one message. `uuidHex` stands for the random part of the id and
      `traceStamp` for the UTC time text of the default trace id. */
  function SendMessage(s: Store, uuidHex: string, now: int, fromAgent: string, toAgent: string,
                       msgType: string, payload: Value, traceId: Option<string>,
                       threadId: Option<string>, traceStamp: string,
                       decoded: Option<Value>): (r: Result<(Store, string)>)
    ensures msgType !in MessageTypes ==> r.Err?
    ensures r.Err? <==> msgType !in MessageTypes || (payload.Str? && decoded.None?) || HasId(s, "msg_" + uuidHex)
    ensures r.Ok? ==> var (s2, id) := r.value;
      && id == "msg_" + uuidHex
      && |s2| == |s| + 1 && s2[..|s|] == s
      && s2[|s|].id == id && s2[|s|].msgType == msgType
      && (!payload.Str? ==> s2[|s|].payload == payload)
      && (payload.Str? ==> Some(s2[|s|].payload) == decoded)
      && s2[|s|].fromAgent == fromAgent && s2[|s|].toAgent == toAgent
      && s2[|s|].status == Queued && s2[|s|].attempt == 0
      && s2[|s|].leasedBy.None? && s2[|s|].leaseUntil.None? && s2[|s|].errorText.None?
      && s2[|s|].createdAt == now && s2[|s|].updatedAt == now
      && s2[|s|].traceId == (if traceId.Some? && |traceId.value| > 0 then traceId.value else "tr_" + traceStamp)
      && s2[|s|].threadId == (if threadId.Some? && |threadId.value| > 0 then threadId.value else "th_default")
  {
    if msgType !in MessageTypes then Err("Unsupported message type: " + msgType)
    else if StoredPayload(payload, decoded).None? then Err("JSONDecodeError: the payload text is not JSON")
    else
      var id := "msg_" + uuidHex;
      if HasId(s, id) then Err("UNIQUE constraint failed: messages.id")
      else
        var m := Message(id, OrDefault(traceId, "tr_" + traceStamp), OrDefault(threadId, "th_default"),
                         fromAgent, toAgent, msgType, StoredPayload(payload, decoded).value, Queued, 0, None, None, None, now, now);
        assert (s + [m])[..|s|] == s;
        Ok((s + [m], id))
  }

  // ------------------------------------------------------------------ claim

  /** The status and lease half of the claim predicate, shared by the SELECT and the UPDATE. */
  predicate Claimable(m: Message, now: int) {
    (m.status == Queued || m.status == Retry) && (m.leaseUntil.None? || m.leaseUntil.value < now)
  }

  /** The full WHERE clause of the claim's SELECT. */
  predicate Eligible(m: Message, toAgent: string, now: int) {
    m.toAgent == toAgent && Claimable(m, now)
  }

  /** `ORDER BY created_at LIMIT 1` over the eligible rows; among rows with the
      same `created_at` the earliest inserted one is taken. */
  function OldestEligible(s: Store, toAgent: string, now: int): (r: Option<nat>)
    ensures r.None? <==> forall j :: 0 <= j < |s| ==> !Eligible(s[j], toAgent, now)
    ensures r.Some? ==> r.value < |s| && Eligible(s[r.value], toAgent, now)
    ensures r.Some? ==> forall j :: 0 <= j < |s| && Eligible(s[j], toAgent, now) ==>
      s[r.value].createdAt <= s[j].createdAt
    ensures r.Some? ==> forall j :: 0 <= j < r.value && Eligible(s[j], toAgent, now) ==>
      s[r.value].createdAt < s[j].createdAt
    decreases |s|
  {
    if |s| == 0 then None
    else
      var n := |s| - 1;
      var prev := OldestEligible(s[..n], toAgent, now);
      assert forall j :: 0 <= j < n ==> s[..n][j] == s[j];
      if Eligible(s[n], toAgent, now) && (prev.None? || s[n].createdAt < s[prev.value].createdAt) then
        Some(n)
      else
        prev
  }

  /** The row a successful claim writes. */
  function Lease(m: Message, workerId: string, leaseUntil: int, now: int): (r: Message)
    ensures r.status == Leased && r.leasedBy == Some(workerId) && r.leaseUntil == Some(leaseUntil)
    ensures r.attempt == m.attempt + 1 && r.updatedAt == now
    ensures r.id == m.id && r.traceId == m.traceId && r.threadId == m.threadId
    ensures r.fromAgent == m.fromAgent && r.toAgent == m.toAgent && r.msgType == m.msgType
    ensures r.payload == m.payload && r.errorText == m.errorText && r.createdAt == m.createdAt
  {
    m.(status := Leased, leasedBy := Some(workerId), leaseUntil := Some(leaseUntil),
       attempt := m.attempt + 1, updatedAt := now)
  }

  /** The claim's UPDATE: rewrites every row with the id that still passes the
      status and lease test, and reports how many rows it changed. */
  function LeaseUpdate(s: Store, id: string, workerId: string, leaseUntil: int, now: int): (r: (Store, nat))
    ensures |r.0| == |s|
    ensures forall i :: 0 <= i < |s| ==>
      r.0[i] == if s[i].id == id && Claimable(s[i], now) then Lease(s[i], workerId, leaseUntil, now) else s[i]
    ensures r.1 == CountMatching(s, id, now)
    decreases |s|
  {
    if |s| == 0 then ([], 0)
    else
      var n := |s| - 1;
      var (rest, count) := LeaseUpdate(s[..n], id, workerId, leaseUntil, now);
      var hit := s[n].id == id && Claimable(s[n], now);
      (rest + [if hit then Lease(s[n], workerId, leaseUntil, now) else s[n]], if hit then count + 1 else count)
  }

  function CountMatching(s: Store, id: string, now: int): nat
    decreases |s|
  {
    if |s| == 0 then 0
    else CountMatching(s[..|s| - 1], id, now) + (if s[|s| - 1].id == id && Claimable(s[|s| - 1], now) then 1 else 0)
  }

  /** `SELECT * FROM messages WHERE id = ?` */
  function FindById(s: Store, id: string): (r: Option<Message>)
    ensures r.Some? ==> r.value in s && r.value.id == id
    ensures r.None? ==> !HasId(s, id)
    decreases |s|
  {
    if |s| == 0 then None
    else if s[0].id == id then Some(s[0])
    else
      var r := FindById(s[1..], id);
      assert !HasId(s[1..], id) ==> !HasId(s, id) by {
        if HasId(s, id) {
          var i :| 0 <= i < |s| && s[i].id == id;
          assert s[1..][i - 1].id == id;
        }
      }
      r
  }

  datatype ClaimOutcome = ClaimOutcome(store: Store, claimed: Option<Message>)

  /** `max(1, lease_seconds)`: a lease always lasts at least one clock unit. */
  function LeaseLength(leaseSeconds: int): (r: int)
    ensures r >= 1 && r >= leaseSeconds
  {
    if leaseSeconds < 1 then 1 else leaseSeconds
  }

  /** Leases the oldest eligible message addressed to `toAgent`. */
  function ClaimNext(s: Store, toAgent: string, workerId: string, leaseSeconds: int, now: int): (r: ClaimOutcome)
    ensures OldestEligible(s, toAgent, now).None? ==> r == ClaimOutcome(s, None)
  {
    match OldestEligible(s, toAgent, now)
    case None => ClaimOutcome(s, None)
    case Some(i) => ClaimAt(s, i, workerId, leaseSeconds, now)
  }

  /** The UPDATE and re-read for the row the SELECT chose. */
  function ClaimAt(s: Store, i: nat, workerId: string, leaseSeconds: int, now: int): ClaimOutcome
    requires i < |s|
  {
    var u := LeaseUpdate(s, s[i].id, workerId, now + LeaseLength(leaseSeconds), now);
    if u.1 != 1 then ClaimOutcome(u.0, None)
    else ClaimOutcome(u.0, FindById(u.0, s[i].id))
  }

  lemma {:induction false} CountMatchingAbsent(s: Store, id: string, now: int)
    requires !HasId(s, id)
    ensures CountMatching(s, id, now) == 0
    decreases |s|
  {
    if |s| > 0 {
      var n := |s| - 1;
      assert forall k :: 0 <= k < n ==> s[..n][k] == s[k];
      CountMatchingAbsent(s[..n], id, now);
    }
  }

  /** Dropping the last row keeps the ids unique, and the dropped row's id is
      then absent. */
  lemma UniqueInit(s: Store)
    requires IdsUnique(s) && |s| > 0
    ensures IdsUnique(s[..|s| - 1]) && !HasId(s[..|s| - 1], s[|s| - 1].id)
  {
    var n := |s| - 1;
    assert forall a :: 0 <= a < n ==> s[..n][a] == s[a];
  }

  /** With unique ids exactly one row passes the UPDATE's predicate. */
  lemma {:induction false} CountMatchingOne(s: Store, i: nat, now: int)
    requires IdsUnique(s) && i < |s| && Claimable(s[i], now)
    ensures CountMatching(s, s[i].id, now) == 1
    decreases |s|
  {
    var n := |s| - 1;
    UniqueInit(s);
    if i < n {
      assert s[..n][i] == s[i];
      CountMatchingOne(s[..n], i, now);
      assert s[n].id != s[i].id;
    } else {
      CountMatchingAbsent(s[..n], s[i].id, now);
    }
  }

  /** With unique ids the claim's UPDATE rewrites exactly the chosen row. */
  lemma LeaseUpdateUnique(s: Store, i: nat, workerId: string, leaseUntil: int, now: int)
    requires IdsUnique(s) && i < |s| && Claimable(s[i], now)
    ensures LeaseUpdate(s, s[i].id, workerId, leaseUntil, now) == (s[i := Lease(s[i], workerId, leaseUntil, now)], 1)
  {
    var r := LeaseUpdate(s, s[i].id, workerId, leaseUntil, now);
    CountMatchingOne(s, i, now);
    assert forall j :: 0 <= j < |s| && j != i ==> s[j].id != s[i].id;
    assert r.0 == s[i := Lease(s[i], workerId, leaseUntil, now)];
  }

  lemma FindByIdUnique(s: Store, i: nat)
    requires IdsUnique(s) && i < |s|
    ensures FindById(s, s[i].id) == Some(s[i])
    decreases |s|
  {
    if i > 0 {
      FindByIdUnique(s[1..], i - 1);
    }
  }

  /** Rewriting a row without changing its id keeps the ids unique. */
  lemma SameIdKeepsUnique(s: Store, i: nat, m: Message)
    requires IdsUnique(s) && i < |s| && m.id == s[i].id
    ensures IdsUnique(s[i := m])
  {
    var s2 := s[i := m];
    forall a, b | 0 <= a < b < |s2| ensures s2[a].id != s2[b].id {
      assert s2[a].id == s[a].id && s2[b].id == s[b].id;
    }
  }

  /** In one atomic step the UPDATE's repeated predicate always matches the row
      the SELECT chose: a claim returns a message exactly when an eligible row
      exists, that message is the oldest eligible one, leased to the caller with
      its attempt count raised by one, and no other row changes. */
  lemma ClaimSome(s: Store, workerId: string, leaseSeconds: int, now: int, i: nat)
    requires IdsUnique(s) && i < |s| && Claimable(s[i], now)
    ensures var m := Lease(s[i], workerId, now + LeaseLength(leaseSeconds), now);
      ClaimAt(s, i, workerId, leaseSeconds, now) == ClaimOutcome(s[i := m], Some(m))
  {
    var until := now + LeaseLength(leaseSeconds);
    LeaseUpdateUnique(s, i, workerId, until, now);
    var m := Lease(s[i], workerId, until, now);
    SameIdKeepsUnique(s, i, m);
    FindByIdUnique(s[i := m], i);
  }

  lemma {:induction false} ClaimSpec(s: Store, toAgent: string, workerId: string, leaseSeconds: int, now: int)
    requires IdsUnique(s)
    ensures var r := ClaimNext(s, toAgent, workerId, leaseSeconds, now);
      && (r.claimed.None? <==> forall j :: 0 <= j < |s| ==> !Eligible(s[j], toAgent, now))
      && (r.claimed.None? ==> r.store == s)
      && (r.claimed.Some? ==> OldestEligible(s, toAgent, now).Some?)
      && (r.claimed.Some? ==>
            var i := OldestEligible(s, toAgent, now).value;
            var m := Lease(s[i], workerId, now + LeaseLength(leaseSeconds), now);
            r.claimed == Some(m) && r.store == s[i := m])
  {
    if OldestEligible(s, toAgent, now).Some? {
      ClaimSome(s, workerId, leaseSeconds, now, OldestEligible(s, toAgent, now).value);
    }
  }

  // ------------------------------------------------------------------ outcomes

  /** Applies `f` to every row with the given id (an UPDATE ... WHERE id = ?). */
  function UpdateById(s: Store, id: string, f: Message -> Message): (r: Store)
    ensures |r| == |s|
    ensures forall i :: 0 <= i < |s| ==> r[i] == if s[i].id == id then f(s[i]) else s[i]
  {
    seq(|s|, i requires 0 <= i < |s| => if s[i].id == id then f(s[i]) else s[i])
  }

  function Finish(m: Message, st: Status, err: Option<string>, now: int): Message {
    m.(status := st, leaseUntil := None, updatedAt := now, errorText := if err.Some? then err else m.errorText)
  }

  /** `mark_done`: unconditional, clears the lease, keeps the error text. */
  function MarkDone(s: Store, id: string, now: int): (r: Store)
    ensures |r| == |s|
    ensures forall i :: 0 <= i < |s| && s[i].id != id ==> r[i] == s[i]
    ensures forall i :: 0 <= i < |s| && s[i].id == id ==>
      r[i].status == Done && r[i].leaseUntil.None? && r[i].updatedAt == now
      && r[i].errorText == s[i].errorText && SameIdentity(r[i], s[i])
  {
    UpdateById(s, id, m => Finish(m, Done, None, now))
  }

  /** `mark_retry`: unconditional, clears the lease, records the error. */
  function MarkRetry(s: Store, id: string, err: string, now: int): (r: Store)
    ensures |r| == |s|
    ensures forall i :: 0 <= i < |s| && s[i].id != id ==> r[i] == s[i]
    ensures forall i :: 0 <= i < |s| && s[i].id == id ==>
      r[i].status == Retry && r[i].leaseUntil.None? && r[i].updatedAt == now
      && r[i].errorText == Some(err) && SameIdentity(r[i], s[i])
  {
    UpdateById(s, id, m => Finish(m, Retry, Some(err), now))
  }

  /** `mark_dead`: unconditional, clears the lease, records the error. */
  function MarkDead(s: Store, id: string, err: string, now: int): (r: Store)
    ensures |r| == |s|
    ensures forall i :: 0 <= i < |s| && s[i].id != id ==> r[i] == s[i]
    ensures forall i :: 0 <= i < |s| && s[i].id == id ==>
      r[i].status == Dead && r[i].leaseUntil.None? && r[i].updatedAt == now
      && r[i].errorText == Some(err) && SameIdentity(r[i], s[i])
  {
    UpdateById(s, id, m => Finish(m, Dead, Some(err), now))
  }

  /** The fields no outcome touches: identity, routing, payload, attempt count and lessee. */
  predicate SameIdentity(a: Message, b: Message) {
    a.id == b.id && a.traceId == b.traceId && a.threadId == b.threadId && a.fromAgent == b.fromAgent
    && a.toAgent == b.toAgent && a.msgType == b.msgType && a.payload == b.payload
    && a.attempt == b.attempt && a.leasedBy == b.leasedBy && a.createdAt == b.createdAt
  }

  // ------------------------------------------------------------------ invariants

  /** A row carries a lease end exactly while it is leased: a claim sets the
      status and the lease end together, and every outcome clears the lease. */
  predicate LeaseInvariant(s: Store) {
    forall i :: 0 <= i < |s| ==> (s[i].status == Leased <==> s[i].leaseUntil.Some?)
  }

  /** The half of the lease invariant the claim query relies on: queued and
      retry rows carry no lease end. */
  predicate IdleUnleased(s: Store) {
    forall i :: 0 <= i < |s| && (s[i].status == Queued || s[i].status == Retry) ==> s[i].leaseUntil.None?
  }

  predicate Valid(s: Store) {
    IdsUnique(s) && LeaseInvariant(s)
  }

  lemma SendPreservesValid(s: Store, uuidHex: string, now: int, fromAgent: string, toAgent: string,
                           msgType: string, payload: Value, traceId: Option<string>,
                           threadId: Option<string>, traceStamp: string, decoded: Option<Value>)
    requires Valid(s)
    ensures var r := SendMessage(s, uuidHex, now, fromAgent, toAgent, msgType, payload, traceId, threadId, traceStamp, decoded);
      r.Ok? ==> Valid(r.value.0)
  {
    var r := SendMessage(s, uuidHex, now, fromAgent, toAgent, msgType, payload, traceId, threadId, traceStamp, decoded);
    if r.Ok? {
      var s2 := r.value.0;
      assert forall i :: 0 <= i < |s| ==> s2[i] == s[i];
      assert forall i :: 0 <= i < |s| ==> s[i].id != s2[|s|].id;
    }
  }

  lemma ClaimPreservesValid(s: Store, toAgent: string, workerId: string, leaseSeconds: int, now: int)
    requires Valid(s)
    ensures Valid(ClaimNext(s, toAgent, workerId, leaseSeconds, now).store)
  {
    ClaimSpec(s, toAgent, workerId, leaseSeconds, now);
    var r := ClaimNext(s, toAgent, workerId, leaseSeconds, now);
    if r.claimed.Some? {
      var i := OldestEligible(s, toAgent, now).value;
      assert forall j :: 0 <= j < |s| ==> r.store[j].id == s[j].id;
    }
  }

  lemma MarksPreserveValid(s: Store, id: string, err: string, now: int)
    requires Valid(s)
    ensures Valid(MarkDone(s, id, now))
    ensures Valid(MarkRetry(s, id, err, now))
    ensures Valid(MarkDead(s, id, err, now))
  {
    var d, r, x := MarkDone(s, id, now), MarkRetry(s, id, err, now), MarkDead(s, id, err, now);
    assert forall j :: 0 <= j < |s| ==> d[j].id == s[j].id && r[j].id == s[j].id && x[j].id == s[j].id;
  }

  /** A leased row is never claimable, whatever the clock says: a lapsed lease
      alone never puts a message back in the queue. */
  lemma LeasedNeverEligible(m: Message, toAgent: string, now: int)
    requires m.status == Leased
    ensures !Eligible(m, toAgent, now)
  {
  }

  /** Under the lease invariant the lease test of the claim predicate is always
      true: eligibility depends only on the recipient and the status. */
  lemma {:induction false} LeaseTestRedundant(s: Store, i: nat, toAgent: string, now: int)
    requires IdleUnleased(s) && i < |s|
    ensures Eligible(s[i], toAgent, now) <==>
      s[i].toAgent == toAgent && (s[i].status == Queued || s[i].status == Retry)
  {
  }

  /** After a retry the row can be claimed again at once by its recipient; after
      done or dead it cannot be claimed at all. */
  lemma {:induction false} OutcomeClaimability(s: Store, i: nat, err: string, now: int, later: int)
    requires i < |s|
    ensures Eligible(MarkRetry(s, s[i].id, err, now)[i], s[i].toAgent, later)
    ensures !Eligible(MarkDone(s, s[i].id, now)[i], s[i].toAgent, later)
    ensures !Eligible(MarkDead(s, s[i].id, err, now)[i], s[i].toAgent, later)
  {
  }

  /** Two workers racing for the same message: whichever claims first wins, and
      the second claim cannot return the same message. */
  lemma {:induction false} NoDoubleClaim(s: Store, toAgent: string, w1: string, w2: string,
                                         lease1: int, lease2: int, t1: int, t2: int)
    requires IdsUnique(s)
    ensures var first := ClaimNext(s, toAgent, w1, lease1, t1);
      var second := ClaimNext(first.store, toAgent, w2, lease2, t2);
      first.claimed.Some? && second.claimed.Some? ==> first.claimed.value.id != second.claimed.value.id
  {
    var first := ClaimNext(s, toAgent, w1, lease1, t1);
    ClaimSpec(s, toAgent, w1, lease1, t1);
    if first.claimed.Some? {
      var i := OldestEligible(s, toAgent, t1).value;
      var m := Lease(s[i], w1, t1 + LeaseLength(lease1), t1);
      var s1 := s[i := m];
      assert first.store == s1 && first.claimed.value.id == s[i].id;
      SameIdKeepsUnique(s, i, m);
      ClaimSpec(s1, toAgent, w2, lease2, t2);
      var second := ClaimNext(s1, toAgent, w2, lease2, t2);
      if second.claimed.Some? {
        var k := OldestEligible(s1, toAgent, t2).value;
        LeasedNeverEligible(s1[i], toAgent, t2);
        assert k != i;
        assert second.claimed.value.id == s[k].id;
      }
    }
  }

  // ------------------------------------------------------------------ queries

  function CountStatus(s: Store, st: Status): (n: nat)
    ensures n <= |s|
    ensures n == 0 <==> forall i :: 0 <= i < |s| ==> s[i].status != st
    decreases |s|
  {
    if |s| == 0 then 0
    else
      var n := |s| - 1;
      assert forall i :: 0 <= i < n ==> s[..n][i] == s[i];
      CountStatus(s[..n], st) + (if s[n].status == st then 1 else 0)
  }

  /** The statuses in the order of their names. */
  const StatusOrder: seq<Status> := [Dead, Done, Leased, Queued, Retry]

  /** The pair `status_counts` reports for a status. */
  function Entry(s: Store, st: Status): (string, nat) {
    (StatusName(st), CountStatus(s, st))
  }

  /** The pairs of the statuses of `order` that occur, in that order. */
  function CountsFrom(s: Store, order: seq<Status>): (r: seq<(string, nat)>)
    ensures |r| <= |order|
    ensures forall k :: 0 <= k < |r| ==> r[k].1 > 0
    decreases |order|
  {
    if |order| == 0 then []
    else
      var rest := CountsFrom(s, order[1..]);
      if CountStatus(s, order[0]) > 0 then [Entry(s, order[0])] + rest else rest
  }

  /** Every status of `order` that occurs has its pair. */
  lemma {:induction false} CountsFromHas(s: Store, order: seq<Status>, st: Status)
    requires st in order && CountStatus(s, st) > 0
    ensures Entry(s, st) in CountsFrom(s, order)
    decreases |order|
  {
    if order[0] != st {
      assert st in order[1..];
      CountsFromHas(s, order[1..], st);
    }
  }

  /** Every pair belongs to a status of `order`. */
  lemma {:induction false} CountsFromOnly(s: Store, order: seq<Status>, k: nat) returns (j: nat)
    requires k < |CountsFrom(s, order)|
    ensures j < |order| && CountsFrom(s, order)[k] == Entry(s, order[j])
    decreases |order|
  {
    var rest := CountsFrom(s, order[1..]);
    if CountStatus(s, order[0]) > 0 {
      if k == 0 {
        j := 0;
      } else {
        var j1 := CountsFromOnly(s, order[1..], k - 1);
        j := j1 + 1;
      }
    } else {
      var j1 := CountsFromOnly(s, order[1..], k);
      j := j1 + 1;
    }
  }

  /** `status_counts`: one (status, count) pair per status present, ordered by status name. */
  function StatusCounts(s: Store): (r: seq<(string, nat)>)
    ensures forall st :: CountStatus(s, st) > 0 <==> Entry(s, st) in r
    ensures forall k :: 0 <= k < |r| ==> exists st :: r[k] == Entry(s, st)
  {
    var r := CountsFrom(s, StatusOrder);
    forall st | CountStatus(s, st) > 0 ensures Entry(s, st) in r {
      assert StatusOrder[StatusIndex(st)] == st;
      CountsFromHas(s, StatusOrder, st);
    }
    forall k | 0 <= k < |r| ensures exists st :: r[k] == Entry(s, st) {
      var j := CountsFromOnly(s, StatusOrder, k);
    }
    r
  }

  function StatusIndex(st: Status): (k: nat)
    ensures k < |StatusOrder| && StatusOrder[k] == st
  {
    match st
    case Dead => 0
    case Done => 1
    case Leased => 2
    case Queued => 3
    case Retry => 4
  }

  function SumCounts(r: seq<(string, nat)>): nat {
    if |r| == 0 then 0 else r[0].1 + SumCounts(r[1..])
  }

  function SumOver(s: Store, order: seq<Status>): nat {
    if |order| == 0 then 0 else CountStatus(s, order[0]) + SumOver(s, order[1..])
  }

  lemma {:induction false} CountsFromSum(s: Store, order: seq<Status>)
    ensures SumCounts(CountsFrom(s, order)) == SumOver(s, order)
    decreases |order|
  {
    if |order| > 0 {
      CountsFromSum(s, order[1..]);
      var rest := CountsFrom(s, order[1..]);
      if CountStatus(s, order[0]) > 0 {
        assert ([Entry(s, order[0])] + rest)[1..] == rest;
      }
    }
  }

  /** Every row has exactly one of the five statuses. */
  lemma {:induction false} CountStatusTotal(s: Store)
    ensures CountStatus(s, Dead) + CountStatus(s, Done) + CountStatus(s, Leased)
          + CountStatus(s, Queued) + CountStatus(s, Retry) == |s|
    decreases |s|
  {
    if |s| > 0 {
      CountStatusTotal(s[..|s| - 1]);
    }
  }

  lemma SumOverCons(s: Store, st: Status, order: seq<Status>)
    ensures SumOver(s, [st] + order) == CountStatus(s, st) + SumOver(s, order)
  {
    assert ([st] + order)[1..] == order;
  }

  lemma SumOverStatusOrder(s: Store)
    ensures SumOver(s, StatusOrder) == CountStatus(s, Dead) + CountStatus(s, Done) + CountStatus(s, Leased)
          + CountStatus(s, Queued) + CountStatus(s, Retry)
  {
    SumOverCons(s, Retry, []);
    SumOverCons(s, Queued, [Retry]);
    SumOverCons(s, Leased, [Queued, Retry]);
    SumOverCons(s, Done, [Leased, Queued, Retry]);
    SumOverCons(s, Dead, [Done, Leased, Queued, Retry]);
    assert [Retry] == [Retry] + [];
    assert [Queued, Retry] == [Queued] + [Retry];
    assert [Leased, Queued, Retry] == [Leased] + [Queued, Retry];
    assert [Done, Leased, Queued, Retry] == [Done] + [Leased, Queued, Retry];
    assert StatusOrder == [Dead] + [Done, Leased, Queued, Retry];
  }

  predicate NamesSorted(order: seq<Status>) {
    forall a, b :: 0 <= a < b < |order| ==> PyStr.LexLess(StatusName(order[a]), StatusName(order[b]))
  }

  lemma {:induction false} CountsFromSorted(s: Store, order: seq<Status>)
    requires NamesSorted(order)
    ensures PairsSorted(CountsFrom(s, order))
    decreases |order|
  {
    if |order| > 0 {
      var rest := CountsFrom(s, order[1..]);
      var r := CountsFrom(s, order);
      assert NamesSorted(order[1..]) by {
        assert forall a :: 0 <= a < |order| - 1 ==> order[1..][a] == order[a + 1];
      }
      CountsFromSorted(s, order[1..]);
      forall k | 0 <= k < |rest| ensures PyStr.LexLess(StatusName(order[0]), rest[k].0) {
        var j := CountsFromOnly(s, order[1..], k);
        assert order[1..][j] == order[j + 1];
      }
      if CountStatus(s, order[0]) > 0 {
        ConsSorted(Entry(s, order[0]), rest);
      }
    }
  }

  predicate PairsSorted(r: seq<(string, nat)>) {
    forall a, b :: 0 <= a < b < |r| ==> PyStr.LexLess(r[a].0, r[b].0)
  }

  lemma ConsSorted(h: (string, nat), rest: seq<(string, nat)>)
    requires PairsSorted(rest)
    requires forall k :: 0 <= k < |rest| ==> PyStr.LexLess(h.0, rest[k].0)
    ensures PairsSorted([h] + rest)
  {
    var r := [h] + rest;
    forall a, b | 0 <= a < b < |r| ensures PyStr.LexLess(r[a].0, r[b].0) {
      assert r[b] == rest[b - 1];
      if a > 0 {
        assert r[a] == rest[a - 1];
      }
    }
  }

  /** A status earlier in `StatusOrder` has the smaller name. */
  lemma NameFollowsIndex(x: Status, y: Status)
    requires StatusIndex(x) < StatusIndex(y)
    ensures PyStr.LexLess(StatusName(x), StatusName(y))
  {
    if x == Dead && y == Done {
      PyStr.LexLessByFirst("ead", "one");
    } else {
      PyStr.LexLessByFirst(StatusName(x), StatusName(y));
    }
  }

  lemma StatusOrderSorted()
    ensures NamesSorted(StatusOrder)
  {
    forall a, b | 0 <= a < b < |StatusOrder|
      ensures PyStr.LexLess(StatusName(StatusOrder[a]), StatusName(StatusOrder[b]))
    {
      assert StatusIndex(StatusOrder[a]) == a && StatusIndex(StatusOrder[b]) == b;
      NameFollowsIndex(StatusOrder[a], StatusOrder[b]);
    }
  }

  /** The counts `status_counts` reports add up to the number of rows, and the
      status names come out strictly increasing. */
  lemma StatusCountsSpec(s: Store)
    ensures SumCounts(StatusCounts(s)) == |s|
    ensures PairsSorted(StatusCounts(s))
  {
    CountStatusTotal(s);
    SumOverStatusOrder(s);
    CountsFromSum(s, StatusOrder);
    StatusOrderSorted();
    CountsFromSorted(s, StatusOrder);
  }

  /** `ORDER BY created_at` (ascending) or `ORDER BY created_at DESC`. */
  predicate InOrder(a: Message, b: Message, desc: bool) {
    if desc then a.createdAt >= b.createdAt else a.createdAt <= b.createdAt
  }

  predicate SortedBy(xs: Store, desc: bool) {
    forall i, j :: 0 <= i < j < |xs| ==> InOrder(xs[i], xs[j], desc)
  }

  /** Inserts `x` in front of the first row it may precede; equal timestamps keep input order. */
  function Insert(x: Message, xs: Store, desc: bool): (r: Store)
    requires SortedBy(xs, desc)
    ensures SortedBy(r, desc)
    ensures multiset(r) == multiset(xs) + multiset{x}
    ensures |r| == |xs| + 1
    decreases |xs|
  {
    if |xs| == 0 || InOrder(x, xs[0], desc) then [x] + xs
    else
      var rest := Insert(x, xs[1..], desc);
      HeadBoundsRest(x, xs, rest, desc);
      ConsSortedBy(xs, rest, desc);
      [xs[0]] + rest
  }

  /** Putting the head back in front of a rearranged tail keeps it sorted and
      keeps its rows. */
  lemma ConsSortedBy(xs: Store, rest: Store, desc: bool)
    requires |xs| > 0 && SortedBy(rest, desc)
    requires forall k :: 0 <= k < |rest| ==> InOrder(xs[0], rest[k], desc)
    ensures SortedBy([xs[0]] + rest, desc)
    ensures multiset([xs[0]] + rest) == multiset(rest) + multiset{xs[0]}
    ensures multiset(xs) == multiset(xs[1..]) + multiset{xs[0]}
  {
    assert xs == [xs[0]] + xs[1..];
  }

  /** The head of a sorted store precedes everything inserted behind it. */
  lemma HeadBoundsRest(x: Message, xs: Store, rest: Store, desc: bool)
    requires SortedBy(xs, desc) && |xs| > 0 && !InOrder(x, xs[0], desc)
    requires multiset(rest) == multiset(xs[1..]) + multiset{x}
    ensures forall k :: 0 <= k < |rest| ==> InOrder(xs[0], rest[k], desc)
  {
    forall k | 0 <= k < |rest| ensures InOrder(xs[0], rest[k], desc) {
      assert rest[k] in multiset(rest);
      if rest[k] != x {
        assert rest[k] in multiset(xs[1..]);
        var j :| 0 <= j < |xs[1..]| && xs[1..][j] == rest[k];
        assert xs[j + 1] == rest[k];
      }
    }
  }

  function Sort(xs: Store, desc: bool): (r: Store)
    ensures SortedBy(r, desc)
    ensures multiset(r) == multiset(xs)
    ensures |r| == |xs|
    decreases |xs|
  {
    if |xs| == 0 then []
    else
      assert xs == [xs[0]] + xs[1..];
      Insert(xs[0], Sort(xs[1..], desc), desc)
  }

  function FilterTrace(s: Store, traceId: string): (r: Store)
    ensures forall k :: 0 <= k < |r| ==> r[k].traceId == traceId
    ensures forall m :: m in s && m.traceId == traceId ==> m in r
    ensures multiset(r) <= multiset(s)
    decreases |s|
  {
    if |s| == 0 then []
    else
      var rest := FilterTrace(s[1..], traceId);
      assert s == [s[0]] + s[1..];
      if s[0].traceId == traceId then [s[0]] + rest else rest
  }

  /** `messages_for_trace`: every message of the trace and nothing else, oldest first. */
  function MessagesForTrace(s: Store, traceId: string): (r: Store)
    ensures SortedBy(r, false)
    ensures forall k :: 0 <= k < |r| ==> r[k].traceId == traceId && r[k] in s
    ensures forall m :: m in s && m.traceId == traceId ==> m in r
    ensures multiset(r) <= multiset(s)
  {
    var f := FilterTrace(s, traceId);
    var r := Sort(f, false);
    SameMembers(r, f);
    SubMembers(f, s);
    assert forall k :: 0 <= k < |r| ==> r[k] in r;
    r
  }

  /** Rearranged rows are the same rows. */
  lemma SameMembers(a: Store, b: Store)
    requires multiset(a) == multiset(b)
    ensures forall m :: m in a <==> m in b
  {
    forall m ensures m in a <==> m in b {
      assert m in a <==> m in multiset(a);
      assert m in b <==> m in multiset(b);
    }
  }

  /** Rows of a sub-multiset are rows of the whole. */
  lemma SubMembers(a: Store, b: Store)
    requires multiset(a) <= multiset(b)
    ensures forall m :: m in a ==> m in b
  {
    forall m | m in a ensures m in b {
      assert m in multiset(a);
    }
  }

  /** `recent_messages`: the `limit` newest messages, newest first; SQLite reads
      a negative LIMIT as no limit. */
  function RecentMessages(s: Store, limit: int): (r: Store)
    ensures SortedBy(r, true)
    ensures |r| == if 0 <= limit < |s| then limit else |s|
    ensures multiset(r) <= multiset(s)
    ensures forall m, k :: m in s && !(m in r) && 0 <= k < |r| ==> m.createdAt <= r[k].createdAt
  {
    var all := Sort(s, true);
    var n := if 0 <= limit < |s| then limit else |s|;
    NewestPrefix(all, n);
    SameMembers(s, all);
    all[..n]
  }

  /** A prefix of a newest-first store holds its newest rows. */
  lemma NewestPrefix(all: Store, n: nat)
    requires SortedBy(all, true) && n <= |all|
    ensures SortedBy(all[..n], true)
    ensures multiset(all[..n]) <= multiset(all)
    ensures forall m, k :: m in all && !(m in all[..n]) && 0 <= k < n ==> m.createdAt <= all[..n][k].createdAt
  {
    assert all == all[..n] + all[n..];
    assert multiset(all) == multiset(all[..n]) + multiset(all[n..]);
    forall m, k | m in all && !(m in all[..n]) && 0 <= k < n ensures m.createdAt <= all[..n][k].createdAt {
      var j :| 0 <= j < |all| && all[j] == m;
      assert all[..n][k] == all[k];
    }
  }
}
