// Rotation of the API reader credential across two stores: a database transaction
// and a Keychain item, with compensation and idempotent replay.

module ReaderRotation {
  import opened Util

  type Material = nat

  /** A salted verifier; it accepts exactly the material it was derived from. */
  datatype Verifier = Scram(material: Material, salt: nat)

  predicate Accepts(v: Verifier, m: Material) {
    v.material == m
  }

  /** The request digest identifies the three varying fields it covers. */
  datatype RequestDigest = RequestDigest(actor: string, key: string, release: string)

  datatype Evidence = Evidence(
    actor: string, generation: nat, previous: Verifier, current: Verifier, release: string)

  datatype ReceiptDigest = ReceiptDigest(eventId: nat, request: RequestDigest, evidence: Evidence)

  /** One row of the audit table. */
  datatype Event = Event(
    id: nat, key: string, request: RequestDigest, receipt: ReceiptDigest, evidence: Evidence)

  /** The committed role verifier and audit rows, and the Keychain item. */
  datatype Store = Store(verifier: Verifier, events: seq<Event>, keychain: Option<Material>)

  /** One call: the release is the checkout's, the event id and salt are fresh random values. */
  datatype Call = Call(
    actor: string, key: string, release: string, eventId: nat, material: Material, salt: nat, faults: Faults)

  /** A Keychain write either works or raises, leaving any content behind. */
  datatype WriteFault = NoFault | Raises(left: Option<Material>)

  /** Which steps raise; a commit that raises has had no effect. */
  datatype Faults = Faults(
    preflight: bool, transaction: bool, alter: bool, keychain: WriteFault, insert: bool, commit: bool,
    restore: WriteFault, recheck: bool, restart: bool)

  datatype Error =
    | InputInvalid
    | Unsafe
    | ReplayDrift
    | ReceiptDrift
    | KeychainItemMissing
    | OldCredentialRefused
    | StepFailed
    | RestoreFailed
    | OldCredentialAccepted
    | RecheckFailed
    | RestartFailed

  datatype Outcome =
    | Rotated(generation: nat, receipt: ReceiptDigest)
    | AlreadyRotated(generation: nat, receipt: ReceiptDigest)

  predicate InputValid(c: Call) {
    0 < |c.actor| <= 160 && 0 < |c.key| <= 160
  }

  function RequestOf(c: Call): RequestDigest {
    RequestDigest(c.actor, c.key, c.release)
  }

  // ------------------------------------------------------------------ invariants

  /** Reader logins with the Keychain value succeed. */
  ghost predicate Agrees(s: Store) {
    s.keychain.Some? && Accepts(s.verifier, s.keychain.value)
  }

  ghost predicate EventSound(e: Event) {
    && e.request == RequestDigest(e.evidence.actor, e.key, e.evidence.release)
    && e.receipt == ReceiptDigest(e.id, e.request, e.evidence)
  }

  /**
   * The audit rows: generation i at position i, one row per key, each chained to the
   * verifier before it, the last one being the role's.
   */
  ghost predicate Ledger(s: Store) {
    && (forall i :: 0 <= i < |s.events| ==> EventSound(s.events[i]) && s.events[i].evidence.generation == i + 1)
    && (forall i, j :: 0 <= i < j < |s.events| ==> s.events[i].key != s.events[j].key)
    && (forall i :: 0 < i < |s.events| ==> s.events[i].evidence.previous == s.events[i - 1].evidence.current)
    && (s.events != [] ==> s.events[|s.events| - 1].evidence.current == s.verifier)
  }

  ghost predicate Recorded(s: Store, e: Event) {
    e in s.events
  }

  ghost predicate KeyUsed(s: Store, key: string) {
    exists e :: e in s.events && e.key == key
  }

  /** The row a successful call adds. */
  function NewEvent(s: Store, c: Call): Event {
    var evidence := Evidence(c.actor, |s.events| + 1, s.verifier, Scram(c.material, c.salt), c.release);
    Event(c.eventId, c.key, RequestOf(c), ReceiptDigest(c.eventId, RequestOf(c), evidence), evidence)
  }

  /** Both stores have moved to the new material and one row has been added. */
  ghost predicate Committed(s: Store, c: Call, s': Store) {
    && !KeyUsed(s, c.key)
    && s' == Store(Scram(c.material, c.salt), s.events + [NewEvent(s, c)], Some(c.material))
  }

  /** The row names the caller, the key, the release, the generation and both verifiers. */
  ghost predicate Records(e: Event, c: Call, generation: nat, previous: Verifier, current: Verifier) {
    && e.key == c.key && e.id == c.eventId && e.evidence.actor == c.actor && e.evidence.release == c.release
    && e.evidence.generation == generation && e.evidence.previous == previous && e.evidence.current == current
  }

  predicate AfterCommit(e: Error) {
    e == OldCredentialAccepted || e == RecheckFailed || e == RestartFailed
  }

  /**
   * The faults that leave the two stores apart: the transaction is undone after the
   * Keychain write was tried, and either that write has lost the item, which is then
   * never restored, or the restoring write leaves something other than the old item.
   */
  predicate Splits(f: Faults, item: Option<Material>) {
    && !f.alter && (f.keychain.Raises? || f.insert || f.commit)
    && (f.keychain == Raises(None) || (f.restore.Raises? && f.restore.left != item))
  }

  /** The input of the call lets it reach the rotation of a fresh key. */
  ghost predicate ReachesRotation(s: Store, c: Call) {
    InputValid(c) && !c.faults.preflight && !c.faults.transaction && !KeyUsed(s, c.key)
  }

  ghost predicate SplitsStores(s: Store, c: Call) {
    ReachesRotation(s, c) && Splits(c.faults, s.keychain)
  }

  /**
   * What a call may do: replay, rotate, or fail with no trace or after the commit.
   * Agreeing stores part exactly when the call splits them; others are left alone.
   */
  ghost predicate Transition(s: Store, c: Call, s': Store, r: Result<Outcome, Error>) {
    Moves(s, c, s', r) && if Agrees(s) then Agrees(s') <==> !SplitsStores(s, c) else s' == s
  }

  ghost predicate Moves(s: Store, c: Call, s': Store, r: Result<Outcome, Error>) {
    match r
    case Ok(AlreadyRotated(generation, receipt)) =>
      && s' == s
      && exists e :: Recorded(s, e) && e.key == c.key && e.request == RequestOf(c)
           && e.evidence.generation == generation && e.receipt == receipt
    case Ok(Rotated(generation, receipt)) =>
      Committed(s, c, s') && generation == |s'.events| && receipt == NewEvent(s, c).receipt
    case Err(e) =>
      if AfterCommit(e) then Committed(s, c, s')
      else if e == RestoreFailed then s'.verifier == s.verifier && s'.events == s.events
      else s' == s
  }

  // -------------------------------------------------------------------- the call

  class Rotation {
    var verifier: Verifier
    var events: seq<Event>
    var keychain: Option<Material>

    ghost function View(): Store
      reads this
    {
      Store(verifier, events, keychain)
    }

    constructor (verifier: Verifier)
      ensures View() == Store(verifier, [], Some(verifier.material))
    {
      this.verifier := verifier;
      events := [];
      keychain := Some(verifier.material);
    }

    /** Replace one existing item; a raising write leaves what it leaves. */
    method ReplaceKeychain(material: Material, fault: WriteFault) returns (ok: bool)
      modifies this`keychain
      ensures ok <==> old(keychain).Some? && fault.NoFault?
      ensures keychain ==
        if old(keychain).None? then None else if fault.NoFault? then Some(material) else fault.left
    {
      if keychain.None? {
        return false;
      }
      ok := fault.NoFault?;
      keychain := if ok then Some(material) else fault.left;
    }

    /** The rows of one idempotency key. */
    method FindReplay(key: string) returns (rows: seq<Event>)
      ensures rows == RowsOf(events, key)
    {
      rows := [];
      for i := 0 to |events|
        invariant rows == RowsOf(events[..i], key)
      {
        assert events[..i + 1][..i] == events[..i];
        if events[i].key == key {
          rows := rows + [events[i]];
        }
      }
      assert events[..|events|] == events;
    }

    /**
     * Rotate once. Stores that agreed agree afterwards, unless the compensating
     * Keychain write itself failed and left something else behind; a recorded key is
     * only replayed, and stores that disagree are left alone.
     */
    method RotateApiReader(c: Call) returns (r: Result<Outcome, Error>)
      requires Ledger(View())
      modifies this
      ensures Transition(old(View()), c, View(), r) && Ledger(View())
      ensures old(Agrees(View())) ==>
        (!Agrees(View()) <==> SplitsStores(old(View()), c))
      ensures old(Agrees(View())) ==> (Agrees(View()) <==> r != Err(RestoreFailed) || keychain == old(keychain))
      ensures !old(Agrees(View())) ==> View() == old(View())
      ensures r == Err(RestoreFailed) ==> c.faults.restore.Raises? || c.faults.keychain == Raises(None)
      ensures InputValid(c) && !c.faults.preflight && !c.faults.transaction ==>
        (KeyUsed(old(View()), c.key) <==> (r.Ok? && r.value.AlreadyRotated?) || r == Err(ReplayDrift))
      ensures r != Err(ReceiptDrift)
      ensures r.Ok? && r.value.Rotated? ==>
        && |events| == |old(events)| + 1 && events[..|old(events)|] == old(events)
        && keychain == Some(c.material) && Accepts(verifier, c.material)
        && r.value.generation == |events| && r.value.receipt == events[|old(events)|].receipt
        && Records(events[|old(events)|], c, |events|, old(verifier), verifier)
      ensures r == Err(InputInvalid) <==> !(0 < |c.actor| <= 160 && 0 < |c.key| <= 160)
      ensures InputValid(c) && !c.faults.preflight && !c.faults.transaction ==>
        forall e :: e in old(events) && e.key == c.key ==> r == ReplayOf(e, c)
      ensures old(Agrees(View())) && InputValid(c) && NoFaults(c.faults) ==>
        (!KeyUsed(old(View()), c.key) && old(keychain) != Some(c.material) ==> r.Ok? && r.value.Rotated?)
    {
      if !InputValid(c) {
        return Err(InputInvalid);
      }
      if c.faults.preflight {
        return Err(Unsafe);
      }
      if c.faults.transaction {
        return Err(StepFailed);
      }
      var replay := FindReplay(c.key);
      ReplayRows(View(), c.key);
      forall e | e in events && e.key == c.key
        ensures replay == [e] && (e.request == RequestOf(c) <==> e.evidence.actor == c.actor && e.evidence.release == c.release)
      {
        ReplayMeans(View(), c, e);
      }
      if replay != [] {
        r := Replay(replay, c);
      } else {
        r := RotateFresh(c);
      }
    }

    /** A recorded key: the stored receipt is recomputed, compared and returned. */
    method Replay(rows: seq<Event>, c: Call) returns (r: Result<Outcome, Error>)
      requires |rows| == 1 && Recorded(View(), rows[0]) && rows[0].key == c.key && EventSound(rows[0])
      ensures Transition(View(), c, View(), r)
      ensures r == if rows[0].request == RequestOf(c)
        then Ok(AlreadyRotated(rows[0].evidence.generation, rows[0].receipt)) else Err(ReplayDrift)
    {
      if |rows| != 1 || rows[0].request != RequestOf(c) {
        return Err(ReplayDrift);
      }
      var row := rows[0];
      var receipt := ReceiptDigest(row.id, RequestOf(c), row.evidence);
      if row.receipt != receipt || row.evidence.release != c.release {
        return Err(ReceiptDrift);
      }
      r := Ok(AlreadyRotated(row.evidence.generation, receipt));
    }

    /** An unused key: alter the role, replace the item, insert the row, commit. */
    method RotateFresh(c: Call) returns (r: Result<Outcome, Error>)
      requires Ledger(View()) && ReachesRotation(View(), c)
      modifies this
      ensures Transition(old(View()), c, View(), r) && Ledger(View())
      ensures old(Agrees(View())) ==> (!Agrees(View()) <==> Splits(c.faults, old(keychain)))
      ensures old(Agrees(View())) ==> (Agrees(View()) <==> r != Err(RestoreFailed) || keychain == old(keychain))
      ensures !old(Agrees(View())) ==> View() == old(View())
      ensures r == Err(RestoreFailed) ==> c.faults.restore.Raises? || c.faults.keychain == Raises(None)
      ensures r.Ok? ==> r.value.Rotated?
      ensures r != Err(ReplayDrift) && r != Err(ReceiptDrift) && r != Err(InputInvalid)
      ensures old(Agrees(View())) && NoFaults(c.faults) && old(keychain) != Some(c.material) ==> r.Ok?
    {
      hide Ledger, KeyUsed;
      if keychain.None? {
        return Err(KeychainItemMissing);
      }
      var oldMaterial := keychain.value;
      if !Accepts(verifier, oldMaterial) {
        return Err(OldCredentialRefused);
      }
      ghost var before := View();
      var evidence := Evidence(c.actor, |events| + 1, verifier, Scram(c.material, c.salt), c.release);
      var receipt := ReceiptDigest(c.eventId, RequestOf(c), evidence);
      if c.faults.alter {
        return Err(StepFailed);
      }
      var staged := Scram(c.material, c.salt);
      var written := ReplaceKeychain(c.material, c.faults.keychain);
      if !written || c.faults.insert || c.faults.commit {
        var restored := ReplaceKeychain(oldMaterial, c.faults.restore);
        LedgerIgnoresKeychain(before, View());
        return Err(if restored then StepFailed else RestoreFailed);
      }
      verifier := staged;
      events := events + [Event(c.eventId, c.key, RequestOf(c), receipt, evidence)];
      CommitKeepsLedger(before, c, View());
      if Accepts(verifier, oldMaterial) {
        return Err(OldCredentialAccepted);
      }
      if c.faults.recheck {
        return Err(RecheckFailed);
      }
      if c.faults.restart {
        return Err(RestartFailed);
      }
      r := Ok(Rotated(evidence.generation, receipt));
    }
  }

  lemma LedgerIgnoresKeychain(s: Store, s': Store)
    requires Ledger(s) && s'.verifier == s.verifier && s'.events == s.events
    ensures Ledger(s')
  {
  }

  predicate NoFaults(f: Faults) {
    && !f.preflight && !f.transaction && !f.alter && f.keychain.NoFault? && !f.insert && !f.commit
    && !f.recheck && !f.restart
  }

  function RowsOf(events: seq<Event>, key: string): seq<Event> {
    if events == [] then []
    else RowsOf(events[..|events| - 1], key)
         + if events[|events| - 1].key == key then [events[|events| - 1]] else []
  }

  /** A used key has exactly one row; an unused key has none. */
  lemma {:induction false} RowsOfKey(events: seq<Event>, key: string)
    requires forall i, j :: 0 <= i < j < |events| ==> events[i].key != events[j].key
    ensures |RowsOf(events, key)| <= 1
    ensures forall e :: e in RowsOf(events, key) <==> e in events && e.key == key
  {
    if events != [] {
      var front := events[..|events| - 1];
      RowsOfKey(front, key);
      assert events == front + [events[|events| - 1]];
      forall e | e in front
        ensures e.key != events[|events| - 1].key
      {
        var i :| 0 <= i < |front| && front[i] == e;
        assert events[i].key != events[|events| - 1].key;
      }
      assert RowsOf(front, key) != [] ==> RowsOf(front, key)[0] in RowsOf(front, key);
    }
  }

  lemma ReplayRows(s: Store, key: string)
    requires Ledger(s)
    ensures KeyUsed(s, key) <==> RowsOf(s.events, key) != []
    ensures RowsOf(s.events, key) != [] ==>
      && |RowsOf(s.events, key)| == 1
      && var e := RowsOf(s.events, key)[0]; Recorded(s, e) && e.key == key && EventSound(e)
  {
    RowsOfKey(s.events, key);
    var rows := RowsOf(s.events, key);
    if rows != [] {
      assert rows[0] in rows;
    }
    if KeyUsed(s, key) {
      var e :| e in s.events && e.key == key;
      assert e in rows;
    }
  }

  lemma NewEventSound(s: Store, c: Call)
    ensures EventSound(NewEvent(s, c))
  {
  }

  lemma CommitKeepsLedger(s: Store, c: Call, s': Store)
    requires Ledger(s) && Committed(s, c, s')
    ensures Ledger(s') && Agrees(s')
  {
    NewEventSound(s, c);
    hide EventSound;
    var n := |s.events|;
    forall i | 0 <= i < n
      ensures s'.events[i].key != s'.events[n].key
    {
      assert s.events[i] in s.events;
    }
  }

  // ------------------------------------------------------------------- every run

  /** A replay by the same actor at the same release returns what was recorded; any other is refused. */
  ghost function ReplayOf(e: Event, c: Call): Result<Outcome, Error> {
    if e.evidence.actor == c.actor && e.evidence.release == c.release
    then Ok(AlreadyRotated(e.evidence.generation, e.receipt)) else Err(ReplayDrift)
  }

  lemma ReplayMeans(s: Store, c: Call, e: Event)
    requires Ledger(s) && Recorded(s, e) && e.key == c.key
    ensures RowsOf(s.events, c.key) == [e]
    ensures e.request == RequestOf(c) <==> e.evidence.actor == c.actor && e.evidence.release == c.release
  {
    ReplayRows(s, c.key);
    RowsOfKey(s.events, c.key);
    var rows := RowsOf(s.events, c.key);
    assert e in rows;
  }

  /** A run of calls, one at a time, each with any faults. */
  ghost predicate Run(stores: seq<Store>, calls: seq<Call>, results: seq<Result<Outcome, Error>>) {
    && |stores| == |calls| + 1 && |results| == |calls|
    && (forall i :: 0 <= i < |calls| ==> Transition(stores[i], calls[i], stores[i + 1], results[i]))
  }

  ghost predicate CommittedAt(stores: seq<Store>, calls: seq<Call>, i: nat)
    requires i < |calls| && |stores| == |calls| + 1
  {
    Committed(stores[i], calls[i], stores[i + 1])
  }

  lemma TransitionKeepsInvariants(s: Store, c: Call, s': Store, r: Result<Outcome, Error>)
    requires Ledger(s) && Transition(s, c, s', r)
    ensures Ledger(s') && s.events <= s'.events
    ensures Agrees(s') <==> Agrees(s) && !SplitsStores(s, c)
    ensures Committed(s, c, s') || (s'.events == s.events && s'.verifier == s.verifier)
  {
    hide SplitsStores, EventSound;
    if Committed(s, c, s') {
      CommitKeepsLedger(s, c, s');
    } else {
      LedgerIgnoresKeychain(s, s');
    }
  }

  /**
   * Between the calls of any run the ledger is numbered and chained, and the stores
   * agree exactly when no call so far has split them.
   */
  lemma {:induction false} RunKeepsAgreement(
      stores: seq<Store>, calls: seq<Call>, results: seq<Result<Outcome, Error>>, i: nat)
    requires Run(stores, calls, results) && Ledger(stores[0]) && Agrees(stores[0]) && i < |stores|
    ensures Ledger(stores[i])
    ensures Agrees(stores[i]) <==> forall j :: 0 <= j < i ==> !SplitsStores(stores[j], calls[j])
  {
    hide Ledger, Agrees, Transition, SplitsStores;
    if i > 0 {
      RunKeepsAgreement(stores, calls, results, i - 1);
      TransitionKeepsInvariants(stores[i - 1], calls[i - 1], stores[i], results[i - 1]);
    }
  }

  /** Where the Keychain is never lost and every restoring write works, the stores always agree. */
  lemma RestoringRunsAgree(
      stores: seq<Store>, calls: seq<Call>, results: seq<Result<Outcome, Error>>, i: nat)
    requires Run(stores, calls, results) && Ledger(stores[0]) && Agrees(stores[0]) && i < |stores|
    requires forall j :: 0 <= j < |calls| ==>
      calls[j].faults.restore.NoFault? && calls[j].faults.keychain != Raises(None)
    ensures Agrees(stores[i])
  {
    RunKeepsAgreement(stores, calls, results, i);
  }

  /** Rows are never removed or changed by later calls. */
  lemma {:induction false} RunKeepsRows(
      stores: seq<Store>, calls: seq<Call>, results: seq<Result<Outcome, Error>>, i: nat, j: nat)
    requires Run(stores, calls, results) && Ledger(stores[0]) && Agrees(stores[0])
    requires i <= j < |stores|
    ensures stores[i].events <= stores[j].events
    decreases j - i
  {
    hide Ledger, Agrees, Transition;
    if i < j {
      RunKeepsAgreement(stores, calls, results, j - 1);
      RunKeepsRows(stores, calls, results, i, j - 1);
      TransitionKeepsInvariants(stores[j - 1], calls[j - 1], stores[j], results[j - 1]);
    }
  }

  /** Each idempotency key rotates at most once in a run. */
  lemma KeyRotatesOnce(stores: seq<Store>, calls: seq<Call>, results: seq<Result<Outcome, Error>>, i: nat, j: nat)
    requires Run(stores, calls, results) && Ledger(stores[0]) && Agrees(stores[0])
    requires i < j < |calls| && calls[i].key == calls[j].key && CommittedAt(stores, calls, i)
    ensures !CommittedAt(stores, calls, j) && stores[j + 1] == stores[j]
  {
    RunKeepsRows(stores, calls, results, i + 1, j);
    RunKeepsAgreement(stores, calls, results, j);
    var row := NewEvent(stores[i], calls[i]);
    assert stores[i + 1].events[|stores[i].events|] == row;
    assert stores[j].events[|stores[i].events|] == row;
    assert row in stores[j].events && row.key == calls[j].key;
    assert KeyUsed(stores[j], calls[j].key);
    TransitionKeepsInvariants(stores[j], calls[j], stores[j + 1], results[j]);
  }

  /** A later successful call with the key of a rotation returns that rotation's receipt. */
  lemma ReplayReturnsRecord(stores: seq<Store>, calls: seq<Call>, results: seq<Result<Outcome, Error>>, i: nat, j: nat)
    requires Run(stores, calls, results) && Ledger(stores[0]) && Agrees(stores[0])
    requires i < j < |calls| && calls[i].key == calls[j].key && CommittedAt(stores, calls, i) && results[j].Ok?
    ensures RequestOf(calls[j]) == RequestOf(calls[i])
    ensures results[j] == Ok(AlreadyRotated(|stores[i + 1].events|, NewEvent(stores[i], calls[i]).receipt))
  {
    KeyRotatesOnce(stores, calls, results, i, j);
    RunKeepsRows(stores, calls, results, i + 1, j);
    RunKeepsAgreement(stores, calls, results, j);
    var row, n := NewEvent(stores[i], calls[i]), |stores[i].events|;
    assert stores[j].events[n] == row by {
      assert stores[i + 1].events[n] == row;
    }
    assert results[j].value.AlreadyRotated?;
    var e :| Recorded(stores[j], e) && e.key == calls[j].key && e.request == RequestOf(calls[j])
      && e.evidence.generation == results[j].value.generation && e.receipt == results[j].value.receipt;
    var k :| 0 <= k < |stores[j].events| && stores[j].events[k] == e;
    assert k == n;
  }
}
