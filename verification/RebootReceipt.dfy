/** The receipt store's operations and the bounded retry loop that completes a
    pending receipt after a restart (src/reboot_receipt.rs). */
module RebootReceipt {
  import opened Basics
  import opened ReceiptProtocol

  const RECEIPT_VERSION := 1
  const RECEIPT_TTL_MILLIS := 600_000
  const MAX_FUTURE_MILLIS := 60_000
  const MAX_RECEIPT_BYTES := 1024
  const U64_MAX := 0xFFFF_FFFF_FFFF_FFFF

  datatype ReceiptTarget =
    | SelfUser
    | User(id: int, accessHash: int)
    | Chat(id: int)
    | Channel(id: int, accessHash: int)

  datatype PendingReceipt = PendingReceipt(version: nat, target: ReceiptTarget, messageId: int, started: nat)

  datatype ValidationError = UnsupportedVersion(version: nat) | InvalidMessageId | InvalidTargetId | TooFarInFuture

  function ValidateShape(r: PendingReceipt): Result<(), ValidationError> {
    if r.version != RECEIPT_VERSION then Err(UnsupportedVersion(r.version))
    else if r.messageId <= 0 then Err(InvalidMessageId)
    else if !r.target.SelfUser? && r.target.id <= 0 then Err(InvalidTargetId)
    else Ok(())
  }

  function SaturatingAdd(a: nat, b: nat): nat {
    if a + b > U64_MAX then U64_MAX else a + b
  }

  function ElapsedMillis(r: PendingReceipt, now: nat): Result<nat, ValidationError> {
    if r.started > SaturatingAdd(now, MAX_FUTURE_MILLIS) then Err(TooFarInFuture)
    else Ok(if now < r.started then 0 else now - r.started)
  }

  datatype DiscardReason =
    | Malformed
    | WrongVersion(version: nat)
    | Invalid(error: ValidationError)
    | Expired
    | UnsafeState

  datatype LoadOutcome =
    | Absent
    | Pending(receipt: PendingReceipt, elapsed: nat)
    | Discarded(reason: DiscardReason)

  /** What a load makes of the bytes it read, given what they decode to. */
  function Judge(size: nat, decoded: Option<PendingReceipt>, now: nat): (r: LoadOutcome)
    ensures !r.Absent?
  {
    if size > MAX_RECEIPT_BYTES then Discarded(UnsafeState)
    else match decoded
    case None => Discarded(Malformed)
    case Some(receipt) =>
      match ValidateShape(receipt)
      case Err(UnsupportedVersion(v)) => Discarded(WrongVersion(v))
      case Err(other) => Discarded(Invalid(other))
      case Ok(_) =>
        match ElapsedMillis(receipt, now)
        case Err(error) => Discarded(Invalid(error))
        case Ok(elapsed) =>
          if elapsed > RECEIPT_TTL_MILLIS then Discarded(Expired) else Pending(receipt, elapsed)
  }

  /** Version 1, a positive message id, and a positive target id for every target
      but the account itself. */
  predicate WellShaped(r: PendingReceipt) {
    && r.version == 1 && r.messageId > 0
    && match r.target
       case SelfUser => true
       case User(id, _) => id > 0
       case Chat(id) => id > 0
       case Channel(id, _) => id > 0
  }

  /** A receipt is still pending exactly in a window of time around its start:
      from one minute before to ten minutes after. */
  lemma PendingWindow(size: nat, decoded: Option<PendingReceipt>, now: nat)
    requires decoded.Some? ==> decoded.value.started < 0x1_0000_0000_0000_0000
    ensures Judge(size, decoded, now).Pending? <==>
      && size <= 1024 && decoded.Some? && WellShaped(decoded.value)
      && decoded.value.started - 60_000 <= now <= decoded.value.started + 600_000
    ensures Judge(size, decoded, now).Pending? ==>
      Judge(size, decoded, now) ==
        Pending(decoded.value, if now < decoded.value.started then 0 else now - decoded.value.started)
  {
  }

  /** Why a receipt that was read is discarded, reason by reason. */
  lemma DiscardedWhen(size: nat, decoded: Option<PendingReceipt>, now: nat)
    requires decoded.Some? ==> decoded.value.started < 0x1_0000_0000_0000_0000
    ensures var r := Judge(size, decoded, now);
      if size > 1024 then r == Discarded(UnsafeState)
      else if decoded.None? then r == Discarded(Malformed)
      else
        var receipt := decoded.value;
        if receipt.version != 1 then r == Discarded(WrongVersion(receipt.version))
        else if receipt.messageId <= 0 then r == Discarded(Invalid(InvalidMessageId))
        else if !WellShaped(receipt) then r == Discarded(Invalid(InvalidTargetId))
        else if now < receipt.started - 60_000 then r == Discarded(Invalid(TooFarInFuture))
        else if now > receipt.started + 600_000 then r == Discarded(Expired)
        else r.Pending?
  {
  }

  /** How many of the first `count` entries are recognised temporaries. */
  function Recognised(entries: seq<Option<nat>>, count: nat): (r: nat)
    ensures r <= count
    decreases count
  {
    if count == 0 then 0
    else if count > |entries| then Recognised(entries, count - 1)
    else
      var last := entries[count - 1];
      Recognised(entries, count - 1) + if last.Some? && IsReceiptTemporary(TempName(last.value)) then 1 else 0
  }

  /** None of the recognised temporaries among the first entries is left. */
  ghost predicate NoneLeft(entries: seq<Option<nat>>, count: nat, temps: set<nat>) {
    forall i :: 0 <= i < count && i < |entries| && entries[i].Some? && IsReceiptTemporary(TempName(entries[i].value)) ==>
      entries[i].value !in temps
  }

  lemma {:induction false} RecognisedInAll(entries: seq<Option<nat>>, seen: nat, count: nat)
    requires seen <= count && (seen == count || |entries| <= seen)
    ensures Recognised(entries, count) == Recognised(entries, seen)
    ensures forall temps :: NoneLeft(entries, seen, temps) ==> NoneLeft(entries, count, temps)
    decreases count
  {
    if seen < count {
      RecognisedInAll(entries, seen, count - 1);
    }
  }

  lemma RecognisedStep(entries: seq<Option<nat>>, seen: nat)
    requires seen < |entries|
    ensures Recognised(entries, 0) == 0
    ensures Recognised(entries, seen + 1) == Recognised(entries, seen)
      + if entries[seen].Some? && IsReceiptTemporary(TempName(entries[seen].value)) then 1 else 0
  {
  }

  lemma NoneLeftStep(entries: seq<Option<nat>>, seen: nat, before: set<nat>, after: set<nat>)
    requires seen < |entries|
    requires after <= before
    requires entries[seen].Some? && IsReceiptTemporary(TempName(entries[seen].value)) ==> entries[seen].value !in after
    ensures NoneLeft(entries, seen, before) ==> NoneLeft(entries, seen + 1, after)
  {
  }

  lemma NothingSeen(entries: seq<Option<nat>>)
    ensures Recognised(entries, 0) == 0 && forall temps :: NoneLeft(entries, 0, temps)
  {
  }

  lemma SweptReflexive(a: Store)
    ensures Swept(a, a)
  {
  }

  datatype StoreError = Io | DeleteDurabilityUnknown

  /** The receipt, if there was one, is still there, and nothing was deleted. */
  ghost predicate Untouched(a: Store, b: Store) {
    b.deletions == a.deletions && (a.receipt.Some? ==> b.receipt == a.receipt)
  }

  /** Nothing but recognised temporaries is gone. */
  ghost predicate Swept(a: Store, b: Store) {
    && b == a.(temps := b.temps) && b.temps <= a.temps
    && forall m :: m in a.temps && m !in b.temps ==> IsReceiptTemporary(TempName(m))
  }

  lemma OnwardReflexive(a: Store)
    ensures Onward(a, a) && Untouched(a, a)
  {
  }

  lemma UntouchedTransitive(a: Store, b: Store, c: Store)
    ensures Untouched(a, b) && Untouched(b, c) ==> Untouched(a, c)
  {
  }

  predicate Holds(s: Store) {
    s.receipt.Some? && s.receipt.value in s.arms
  }

  /** The bytes armed as the receipt there is. */
  function Held(s: Store): Bytes
    requires Holds(s)
  {
    s.arms[s.receipt.value].bytes
  }

  /** The state directory as one process sees it. `others` is what the rest of
      the system does before its n-th operation, `fate` whether that works, and
      `listing` the entries a listing at that time yields: temporaries by their
      nonce, and anything else. */
  class ReceiptDirectory {
    var store: Store
    var clock: nat
    const others: nat -> seq<Step>
    const fate: nat -> bool
    const listing: nat -> seq<Option<nat>>
    const decode: Bytes -> Option<PendingReceipt>
    ghost var history: seq<Step>

    ghost predicate Valid() reads this {
      store == Run(EMPTY, history)
    }

    /** No other process is at work. */
    ghost predicate Quiet() {
      forall k: nat :: others(k) == []
    }

    /** No other process removes the receipt. */
    ghost predicate Undisturbed() {
      forall k: nat, s <- others(k) :: !s.Remove?
    }

    /** Every operation of this process works. */
    ghost predicate Reliable() {
      forall k: nat :: fate(k)
    }

    constructor (
        others: nat -> seq<Step>, fate: nat -> bool, listing: nat -> seq<Option<nat>>, decode: Bytes -> Option<PendingReceipt>)
      ensures Valid() && store == EMPTY
    {
      this.others, this.fate, this.listing, this.decode := others, fate, listing, decode;
      store, clock, history := EMPTY, 0, [];
    }

    /** Facts about arm `n` that hold of every reachable store. */
    lemma Known(n: nat)
      requires Valid() && n in store.arms
      ensures ArmConsistent(store, n)
    {
      RunKeepsInv(EMPTY, history);
    }

    lemma Reachable()
      requires Valid()
      ensures Inv(store)
    {
      RunKeepsInv(EMPTY, history);
    }

    lemma KnownReceipt()
      requires Valid() && store.receipt.Some?
      ensures store.receipt.value in store.installed && store.receipt.value in store.arms
    {
      RunKeepsInv(EMPTY, history);
    }

    method Perform(step: Step)
      requires Valid()
      modifies this`store, this`history
      ensures Valid() && store == Do(old(store), step) && history == old(history) + [step]
      ensures Onward(old(store), store) && (!step.Remove? ==> Untouched(old(store), store))
    {
      RunAppend(EMPTY, history, step);
      StepIsOnward(store, step);
      Reachable();
      if store.receipt.Some? {
        OnlyRemoveChangesReceipt(store, step);
      }
      store, history := Do(store, step), history + [step];
    }

    /** Lets the other processes go on, then says whether the next operation of
        this one works. Nobody else acts for arm `mine`. */
    method Yield(ghost mine: nat) returns (ok: bool)
      requires Valid()
      requires forall k: nat, s <- others(k) :: Actor(s) != Some(mine)
      modifies this`store, this`clock, this`history
      ensures clock == old(clock) + 1 && ok == fate(old(clock))
      ensures Valid() && old(history) <= history
      ensures mine in store.arms <==> mine in old(store).arms
      ensures mine in store.arms ==> store.arms[mine] == old(store).arms[mine]
      ensures Quiet() ==> store == old(store)
      ensures forall k :: k in old(store).installed ==> k in store.installed
      ensures Onward(old(store), store) && (Undisturbed() ==> Untouched(old(store), store))
    {
      hide Do, Onward, Untouched;
      var steps := others(clock);
      var i := 0;
      OnwardReflexive(store);
      while i < |steps|
        invariant 0 <= i <= |steps| && clock == old(clock) && steps == others(clock)
        invariant Valid() && old(history) <= history
        invariant mine in store.arms <==> mine in old(store).arms
        invariant mine in store.arms ==> store.arms[mine] == old(store).arms[mine]
        invariant i == 0 ==> store == old(store)
        invariant forall k :: k in old(store).installed ==> k in store.installed
        invariant Onward(old(store), store) && (Undisturbed() ==> Untouched(old(store), store))
      {
        assert steps[i] in others(clock);
        OthersKeepArm(store, steps[i], mine);
        StepKeepsBytes(store, steps[i]);
        ghost var before := store;
        Perform(steps[i]);
        OnwardTransitive(old(store), before, store);
        UntouchedTransitive(old(store), before, store);
        i := i + 1;
      }
      ok := fate(clock);
      clock := clock + 1;
    }

    ghost predicate NobodyElseIs(mine: nat) {
      forall k: nat, s <- others(k) :: Actor(s) != Some(mine)
    }

    /** Lists the directory and looks at no more than sixteen entries; removes
        those it takes for receipt temporaries. */
    method CleanupStaleTemporaries(ghost mine: nat) returns (r: Result<(nat, nat), StoreError>)
      requires Valid() && NobodyElseIs(mine)
      modifies this`store, this`clock, this`history
      ensures r.Ok? ==> r.value.0 + r.value.1 <= 16
      ensures r.Err? <==> !fate(old(clock))
      ensures Valid() && old(history) <= history && old(clock) < clock
      ensures mine in store.arms <==> mine in old(store).arms
      ensures mine in store.arms ==> store.arms[mine] == old(store).arms[mine]
      ensures Quiet() ==> Swept(old(store), store)
      ensures Onward(old(store), store) && (Undisturbed() ==> Untouched(old(store), store))
      // Every recognised temporary among those entries is tried, and gone when
      // all operations work.
      ensures r.Ok? ==> r.value.0 + r.value.1 == Recognised(listing(old(clock)), 16)
      ensures Reliable() && Quiet() ==> r.Ok? && r.value.1 == 0 && NoneLeft(listing(old(clock)), 16, store.temps)
    {
      hide Do, Onward, Untouched, Swept, Recognised, NoneLeft, IsReceiptTemporary, TempName;
      SweptReflexive(store);
      var entries := listing(clock);
      var listed := Yield(mine);
      if !listed {
        return Err(Io);
      }
      var removed, failures := 0, 0;
      var seen := 0;
      NothingSeen(entries);
      while seen < |entries| && seen < 16
        invariant 0 <= seen <= 16 && seen <= |entries| && removed + failures == Recognised(entries, seen)
        invariant Reliable() && Quiet() ==> failures == 0 && NoneLeft(entries, seen, store.temps)
        invariant Valid() && old(history) <= history && old(clock) < clock
        invariant mine in store.arms <==> mine in old(store).arms
        invariant mine in store.arms ==> store.arms[mine] == old(store).arms[mine]
        invariant Quiet() ==> Swept(old(store), store)
        invariant Onward(old(store), store) && (Undisturbed() ==> Untouched(old(store), store))
      {
        var entry := entries[seen];
        RecognisedStep(entries, seen);
        ghost var temps := store.temps;
        seen := seen + 1;
        if entry.Some? && IsReceiptTemporary(TempName(entry.value)) {
          var ok := RemoveEntry(entry.value, mine);
          removed, failures := if ok then removed + 1 else removed, if ok then failures else failures + 1;
        }
        if Reliable() && Quiet() {
          NoneLeftStep(entries, seen - 1, temps, store.temps);
        }
      }
      RecognisedInAll(entries, seen, 16);
      return Ok((removed, failures));
    }

    method RemoveEntry(m: nat, ghost mine: nat) returns (ok: bool)
      requires Valid() && NobodyElseIs(mine) && IsReceiptTemporary(TempName(m))
      modifies this`store, this`clock, this`history
      ensures Valid() && old(history) <= history && old(clock) < clock
      ensures mine in store.arms <==> mine in old(store).arms
      ensures mine in store.arms ==> store.arms[mine] == old(store).arms[mine]
      ensures forall a :: Swept(a, old(store)) && Quiet() ==> Swept(a, store)
      ensures forall a :: Onward(a, old(store)) ==> Onward(a, store)
      ensures forall a :: Untouched(a, old(store)) && Undisturbed() ==> Untouched(a, store)
      ensures Reliable() ==> ok
      ensures ok && Quiet() ==> m !in store.temps && store.temps <= old(store).temps
    {
      ok := Yield(mine);
      if ok {
        Perform(CleanUp(m));
      }
    }

    /** `arm`, with a fresh nonce `n`. What it returns is its recorded outcome. */
    method ArmBlocking(n: nat, bytes: Bytes) returns (r: Outcome)
      requires Valid() && NobodyElseIs(n) && n !in store.arms
      modifies this`store, this`clock, this`history
      ensures Reliable() && Quiet() ==> r == if old(store).receipt.None? then Armed else Conflict
      ensures Valid() && old(history) <= history
      ensures n in store.arms && store.arms[n].bytes == bytes && store.arms[n].phase == Finished(r)
      ensures n in store.installed <==> r == Armed || r == DurabilityUnknown
      ensures r == Armed ==> n !in store.temps
      ensures Quiet() && old(store).receipt.Some? ==> store.receipt == old(store).receipt
      ensures Quiet() && old(store).receipt.None? ==>
        store.receipt == if r == Armed || r == DurabilityUnknown then Some(n) else None
    {
      var swept := CleanupStaleTemporaries(n);
      Perform(Begin(n, bytes));
      if swept.Err? {
        Perform(Abandon(n));
        Known(n);
        return Failed;
      }
      r := WriteTemporary(n, bytes);
      if r == Armed {
        r := InstallTemporary(n, bytes);
      }
      // The temporary is removed once more, whatever happened.
      var dropped := DropTemporary(n);
      Known(n);
    }

    /** Removes the temporary if the file system lets it. */
    method DropTemporary(n: nat) returns (ok: bool)
      requires Valid() && NobodyElseIs(n) && n in store.arms
      requires store.arms[n].phase.Linked? || store.arms[n].phase.Finished?
      modifies this`store, this`clock, this`history
      ensures Reliable() && Quiet() && n in old(store).temps ==> n in store.arms && store.arms[n].tidied
      ensures Valid() && old(history) <= history
      ensures n in store.arms && store.arms[n].bytes == old(store).arms[n].bytes
      ensures store.arms[n].phase == old(store).arms[n].phase
      ensures Quiet() ==> store.receipt == old(store).receipt
    {
      ok := Yield(n);
      if ok {
        Perform(Unlink(n));
      }
    }

    /** Creates, fills and syncs the temporary; `Armed` here means so far so
        good, `Failed` that the arm is over. */
    method WriteTemporary(n: nat, bytes: Bytes) returns (r: Outcome)
      requires Valid() && NobodyElseIs(n) && n in store.arms
      requires store.arms[n].phase == Ready && store.arms[n].bytes == bytes
      modifies this`store, this`clock, this`history
      ensures Reliable() ==> r == Armed
      ensures r == Armed <==> fate(old(clock)) && fate(old(clock) + 1) && fate(old(clock) + 2)
      ensures Valid() && old(history) <= history
      ensures n in store.arms && store.arms[n].bytes == bytes
      ensures r == Armed || r == Failed
      ensures r == Armed ==> store.arms[n].phase.Flushed?
      ensures r == Failed ==> store.arms[n].phase == Finished(Failed)
      ensures Quiet() ==> store.receipt == old(store).receipt && (r == Armed ==> n in store.temps)
    {
      var created := CreateTemporary(n);
      if !created {
        return Failed;
      }
      r := FillTemporary(n, bytes);
    }

    /** A failing write may have written a part. */
    method FillTemporary(n: nat, bytes: Bytes) returns (r: Outcome)
      requires Valid() && NobodyElseIs(n) && n in store.arms
      requires store.arms[n].phase == Writing && store.arms[n].written == 0 && store.arms[n].bytes == bytes
      modifies this`store, this`clock, this`history
      ensures Reliable() ==> r == Armed
      // It is written and synced, or it is over.
      ensures r == Armed <==> fate(old(clock)) && fate(old(clock) + 1)
      ensures r == Armed ==> clock == old(clock) + 2
      ensures Valid() && old(history) <= history
      ensures n in store.arms && store.arms[n].bytes == bytes
      ensures r == Armed || r == Failed
      ensures r == Armed ==> store.arms[n].phase.Flushed?
      ensures r == Failed ==> store.arms[n].phase == Finished(Failed)
      ensures Quiet() ==> store.receipt == old(store).receipt && store.temps == old(store).temps
    {
      hide Do;
      var ok := Yield(n);
      if !ok {
        WriteStep(n, |bytes| / 2);
        Perform(WriteSome(n, |bytes| / 2));
        AbandonStep(n);
        Perform(Abandon(n));
        return Failed;
      }
      WriteStep(n, |bytes|);
      Perform(WriteSome(n, |bytes|));
      ok := Yield(n);
      if !ok {
        AbandonStep(n);
        Perform(Abandon(n));
        return Failed;
      }
      FlushStep(n);
      Perform(Flush(n));
      return Armed;
    }

    lemma WriteStep(n: nat, upTo: nat)
      requires n in store.arms && store.arms[n].phase == Writing
      requires store.arms[n].written <= upTo <= |store.arms[n].bytes|
      ensures Do(store, WriteSome(n, upTo)) == WithArm(store, n, store.arms[n].(written := upTo))
    {
    }

    lemma FlushStep(n: nat)
      requires n in store.arms && store.arms[n].phase == Writing && store.arms[n].written == |store.arms[n].bytes|
      ensures Do(store, Flush(n)) == WithArm(store, n, store.arms[n].(phase := Flushed))
    {
    }

    lemma AbandonStep(n: nat)
      requires n in store.arms && store.arms[n].phase == Writing
      ensures Do(store, Abandon(n)) == WithArm(store, n, store.arms[n].(phase := Finished(Failed)))
    {
    }

    method CreateTemporary(n: nat) returns (ok: bool)
      requires Valid() && NobodyElseIs(n) && n in store.arms && store.arms[n].phase == Ready
      modifies this`store, this`clock, this`history
      ensures Reliable() ==> ok
      ensures ok == fate(old(clock)) && clock == old(clock) + 1
      ensures Valid() && old(history) <= history
      ensures n in store.arms && store.arms[n].bytes == old(store).arms[n].bytes
      ensures ok ==> store.arms[n].phase.Writing? && store.arms[n].written == 0
      ensures !ok ==> store.arms[n].phase == Finished(Failed)
      ensures Quiet() ==> store.receipt == old(store).receipt && (ok ==> n in store.temps)
    {
      Known(n);
      ok := Yield(n);
      Perform(if ok then CreateTemp(n) else Abandon(n));
    }

    /** The link commits; from then on the arm no longer counts as failed. */
    method InstallTemporary(n: nat, bytes: Bytes) returns (r: Outcome)
      requires Valid() && NobodyElseIs(n) && n in store.arms
      requires store.arms[n].phase == Flushed && store.arms[n].bytes == bytes
      modifies this`store, this`clock, this`history
      ensures Reliable() && Quiet() && n in old(store).temps ==> r == if old(store).receipt.None? then Armed else Conflict
      ensures Valid() && old(history) <= history
      ensures n in store.arms && store.arms[n].bytes == bytes && store.arms[n].phase == Finished(r)
      ensures n in store.installed <==> r == Armed || r == DurabilityUnknown
      ensures n in store.installed ==> (r == Armed <==> store.arms[n].tidied && clock > 0 && fate(clock - 1))
      ensures Quiet() && old(store).receipt.Some? ==> store.receipt == old(store).receipt
      ensures Quiet() && old(store).receipt.None? ==>
        store.receipt == if r == Armed || r == DurabilityUnknown then Some(n) else None
    {
      hide Do;
      LinkTemporary(n);
      if store.arms[n].phase.Finished? {
        Known(n);
        return store.arms[n].phase.outcome;
      }
      r := TidyAndSync(n);
      Known(n);
    }

    /** Once linked, it is armed when tidying up and the sync both work, and of
        unknown durability when one of them fails; it is never a failure. */
    method TidyAndSync(n: nat) returns (r: Outcome)
      requires Valid() && NobodyElseIs(n) && n in store.arms && store.arms[n].phase == Linked
      modifies this`store, this`clock, this`history
      ensures Reliable() && Quiet() && n in old(store).temps ==> r == Armed
      ensures Valid() && old(history) <= history
      ensures n in store.arms && store.arms[n].bytes == old(store).arms[n].bytes && store.arms[n].phase == Finished(r)
      ensures r == if store.arms[n].tidied && clock > 0 && fate(clock - 1) then Armed else DurabilityUnknown
      ensures Quiet() ==> store.receipt == old(store).receipt
    {
      hide Do;
      var dropped := DropTemporary(n);
      var synced := Yield(n);
      ReportStep(n, synced);
      Perform(Report(n, synced));
      return store.arms[n].phase.outcome;
    }

    lemma ReportStep(n: nat, durable: bool)
      requires n in store.arms && store.arms[n].phase == Linked
      ensures Do(store, Report(n, durable)) == WithArm(store, n, store.arms[n].(
        phase := Finished(if durable && store.arms[n].tidied then Armed else DurabilityUnknown)))
    {
    }

    method LinkTemporary(n: nat)
      requires Valid() && NobodyElseIs(n) && n in store.arms && store.arms[n].phase == Flushed
      modifies this`store, this`clock, this`history
      ensures Reliable() && Quiet() && n in old(store).temps ==>
        && n in store.arms && n in store.temps
        && store.arms[n].phase == if old(store).receipt.None? then Linked else Finished(Conflict)
      ensures Valid() && old(history) <= history
      ensures n in store.arms && store.arms[n].bytes == old(store).arms[n].bytes
      ensures var phase := store.arms[n].phase;
        phase == Linked || phase == Finished(Conflict) || phase == Finished(Failed)
      ensures Quiet() && store.arms[n].phase == Linked ==> old(store).receipt.None? && store.receipt == Some(n)
      ensures Quiet() && store.arms[n].phase != Linked ==> store.receipt == old(store).receipt
    {
      var ok := Yield(n);
      Perform(if ok then Link(n) else Abandon(n));
    }

    /** One of the operations from `from` up to `to` failed. */
    ghost predicate Faulted(from: nat, to: nat) {
      exists c: nat :: from <= c < to && !fate(c)
    }

    /** At some moment since then there was no receipt. */
    ghost predicate WasAbsent(since: seq<Step>) reads this {
      exists h :: since <= h <= history && Run(EMPTY, h).receipt.None?
    }

    /** `remove`: whether there was a receipt to delete. */
    method RemoveBlocking(ghost mine: nat) returns (r: Result<bool, StoreError>)
      requires Valid() && NobodyElseIs(mine)
      modifies this`store, this`clock, this`history
      ensures Valid() && old(history) <= history && old(clock) <= clock && Onward(old(store), store)
      ensures r.Err? ==> Faulted(old(clock), clock)
      // The removal and the sync of the directory, one after the other.
      ensures r == Ok(true) ==> fate(old(clock)) && fate(old(clock) + 1) && clock == old(clock) + 2
      ensures r == Err(DeleteDurabilityUnknown) ==> fate(old(clock)) && !fate(old(clock) + 1)
      ensures r == Err(Io) ==> !fate(old(clock))
      // With others at work: a deletion is one, and "none" was true at a time.
      ensures r == Ok(true) || r == Err(DeleteDurabilityUnknown) ==> store.deletions > old(store).deletions
      ensures r == Ok(false) ==> WasAbsent(old(history))
      // Unless another process removes it, this one deletes the receipt there is.
      ensures Undisturbed() && old(store).receipt.Some? && r != Err(Io) ==>
        r != Ok(false) && store.deletions == old(store).deletions + 1 && store.receipt != old(store).receipt
      // Alone.
      ensures Quiet() ==> store == (if r == Err(Io) then old(store) else Do(old(store), Remove))
      ensures Quiet() && r.Ok? ==> r.value == old(store).receipt.Some?
      ensures Quiet() && r == Err(DeleteDurabilityUnknown) ==> old(store).receipt.Some?
    {
      hide Inv;
      Reachable();
      var ok := Yield(mine);
      if store.receipt.None? {
        return Ok(false);
      }
      if !ok {
        return Err(Io);
      }
      Perform(Remove);
      ok := Yield(mine);
      Reachable();
      if old(store).receipt.Some? && Undisturbed() {
        DeletedIsGone(old(store), store);
      }
      return if ok then Ok(true) else Err(DeleteDurabilityUnknown);
    }

    /** `load_at`: reads, judges, and discards what is not pending. A receipt it
        returns was installed whole. */
    method LoadAt(now: nat, ghost mine: nat) returns (r: Result<LoadOutcome, StoreError>)
      requires Valid() && NobodyElseIs(mine)
      modifies this`store, this`clock, this`history
      ensures Valid() && old(history) <= history && old(clock) <= clock && Onward(old(store), store)
      ensures r.Err? ==> Faulted(old(clock), clock)
      ensures r.Ok? && r.value.Pending? ==> exists k ::
        && k in store.installed && k in store.arms
        && Judge(|store.arms[k].bytes|, decode(store.arms[k].bytes), now) == r.value
      ensures r.Ok? && r.value.Absent? ==> WasAbsent(old(history))
      // Unless another process removes it, the receipt there is is judged, and
      // deleted when it is discarded.
      ensures Undisturbed() && Holds(old(store)) && r.Ok? ==>
        && r.value == Judge(|Held(old(store))|, decode(Held(old(store))), now)
        && (r.value.Pending? ==> store.receipt == old(store).receipt)
        && (r.value.Discarded? ==> store.receipt != old(store).receipt)
      // Alone.
      ensures Quiet() && r.Ok? ==>
        && (r.value.Absent? <==> old(store).receipt.None?)
        && (!r.value.Pending? ==> store.receipt.None?)
        && (r.value.Pending? ==> store.receipt == old(store).receipt)
    {
      hide Inv;
      Reachable();
      var read := ReadReceipt(mine);
      if read.Err? {
        return Err(read.error);
      }
      if read.value.None? {
        return Ok(Absent);
      }
      var bytes := read.value.value;
      var outcome := Judge(|bytes|, decode(bytes), now);
      if outcome.Discarded? {
        var removal := RemoveBlocking(mine);
        if removal.Err? {
          return Err(removal.error);
        }
      }
      return Ok(outcome);
    }

    /** Sweeps, opens the receipt and reads it. The open file outlives a removal
        of its name. */
    method ReadReceipt(ghost mine: nat) returns (r: Result<Option<Bytes>, StoreError>)
      requires Valid() && NobodyElseIs(mine)
      modifies this`store, this`clock, this`history
      ensures Valid() && old(history) <= history && old(clock) <= clock && Onward(old(store), store)
      ensures Undisturbed() ==> Untouched(old(store), store)
      ensures r.Err? ==> Faulted(old(clock), clock)
      // Opening and reading are the last two operations, and both worked.
      ensures r.Ok? && r.value.Some? ==> clock >= old(clock) + 3 && fate(clock - 2) && fate(clock - 1)
      ensures r.Ok? && r.value.Some? ==> exists k :: k in store.installed && k in store.arms && store.arms[k].bytes == r.value.value
      ensures r == Ok(None) ==> WasAbsent(old(history))
      ensures Undisturbed() && Holds(old(store)) && r.Ok? ==> r.value == Some(Held(old(store)))
      ensures Quiet() ==> store.receipt == old(store).receipt
      ensures Quiet() && r.Ok? ==> (r.value.None? <==> old(store).receipt.None?)
    {
      hide Onward, Do, Inv, Recognised, NoneLeft;
      ghost var s0 := store;
      var swept := CleanupStaleTemporaries(mine);
      if swept.Err? {
        assert !fate(old(clock));
        return Err(Io);
      }
      ghost var s1 := store;
      var ok := Yield(mine);
      ghost var s2 := store;
      OnwardTransitive(s0, s1, s2);
      if store.receipt.None? {
        return Ok(None);
      }
      if !ok {
        return Err(Io);
      }
      KnownReceipt();
      var inode := store.receipt.value;
      ok := Yield(mine);
      OnwardTransitive(s0, s2, store);
      if !ok {
        return Err(Io);
      }
      KnownInstalled(inode);
      BytesStay(s0, store);
      return Ok(Some(Content(store, inode)));
    }

    lemma BytesStay(a: Store, b: Store)
      requires Onward(a, b)
      ensures forall n :: n in a.arms ==> n in b.arms && b.arms[n].bytes == a.arms[n].bytes
    {
    }

    lemma KnownInstalled(n: nat)
      requires Valid() && n in store.installed
      ensures n in store.arms && store.arms[n].written == |store.arms[n].bytes|
      ensures Content(store, n) == store.arms[n].bytes
    {
      RunKeepsInv(EMPTY, history);
      assert ArmConsistent(store, n);
    }
  }

  // ------------------------------------------------------------ completion

  datatype EditOutcome = Applied | AlreadyApplied | Temporary | Terminal

  datatype Completion = NothingPending | Thrown | Done(outcome: EditOutcome) | TemporaryExhausted

  datatype CompletionError = StoreFailed(error: StoreError) | ClockFailed | ReceiptInvalid(invalid: ValidationError)

  datatype Intent = Intent(receipt: PendingReceipt, elapsed: nat)

  /** Editor, clock and sleeper: the n-th edit ends as `outcomes(n)`, the n-th
      look at the clock gives `ticks(n)`. */
  class Messenger {
    const outcomes: nat -> EditOutcome
    const ticks: nat -> Option<nat>
    var looks: nat
    var edits: seq<Intent>
    var sleeps: nat

    constructor (outcomes: nat -> EditOutcome, ticks: nat -> Option<nat>)
      ensures looks == 0 && edits == [] && sleeps == 0
    {
      this.outcomes, this.ticks := outcomes, ticks;
      looks, edits, sleeps := 0, [], 0;
    }

    method Look() returns (now: Option<nat>)
      modifies this`looks
      ensures now == ticks(old(looks)) && looks == old(looks) + 1
    {
      now := ticks(looks);
      looks := looks + 1;
    }

    method Edit(intent: Intent) returns (outcome: EditOutcome)
      modifies this`edits
      ensures edits == old(edits) + [intent] && outcome == outcomes(|old(edits)|)
    {
      outcome := outcomes(|edits|);
      edits := edits + [intent];
    }
  }

  /** The first `n` edits were all temporary failures. */
  ghost predicate AllTemporary(outcomes: nat -> EditOutcome, n: nat) {
    forall k: nat :: k < n ==> outcomes(k) == Temporary
  }

  /** How many edits a run makes when clock and store cooperate: up to the first
      outcome that is not temporary, or the limit. */
  function EditsNeeded(outcomes: nat -> EditOutcome, limit: nat): (n: nat)
    ensures n <= limit
    ensures limit > 0 ==> n > 0
  {
    if limit == 0 then 0
    else
      var before := EditsNeeded(outcomes, limit - 1);
      if before < limit - 1 || (before > 0 && outcomes(before - 1) != Temporary) then before else limit
  }

  lemma {:induction false} EditsNeededMeans(outcomes: nat -> EditOutcome, limit: nat, n: nat)
    requires 0 < n <= limit && AllTemporary(outcomes, n - 1)
    requires n == limit || outcomes(n - 1) != Temporary
    ensures EditsNeeded(outcomes, limit) == n
    decreases limit
  {
    if n < limit {
      EditsNeededMeans(outcomes, limit - 1, n);
    } else if limit > 1 {
      EditsNeededMeans(outcomes, limit - 1, n - 1);
    }
  }

  /** The k-th edit is for `receipt` and tells the time elapsed at its own look
      at the clock. */
  ghost predicate Tells(messenger: Messenger, edit: Intent, receipt: PendingReceipt, k: nat) {
    && edit.receipt == receipt
    && messenger.ticks(k + 1).Some?
    && var now := messenger.ticks(k + 1).value;
      && receipt.started <= (if now + 60_000 > U64_MAX then U64_MAX else now + 60_000)
      && edit.elapsed == if now < receipt.started then 0 else now - receipt.started
  }

  /** Why a run ended in an error after `n` edits: its next look at the clock
      failed, or refused the receipt, or the store failed at a final outcome. */
  ghost predicate Cause(messenger: Messenger, receipt: PendingReceipt, n: nat, error: CompletionError) {
    match error
    case ClockFailed => messenger.ticks(n + 1).None?
    case ReceiptInvalid(invalid) =>
      messenger.ticks(n + 1).Some? && ElapsedMillis(receipt, messenger.ticks(n + 1).value) == Err(invalid)
    case StoreFailed(_) => n > 0 && messenger.outcomes(n - 1) != Temporary
  }

  /** What the edits made so far and the result say of each other. */
  ghost predicate RetriesFit(messenger: Messenger, receipt: PendingReceipt, limit: nat, r: Result<Completion, CompletionError>)
    reads messenger
  {
    var n := |messenger.edits|;
    && n <= limit
    && (n > 0 ==> AllTemporary(messenger.outcomes, n - 1))
    && (forall k :: 0 <= k < n ==> Tells(messenger, messenger.edits[k], receipt, k))
    && (r.Err? ==> Cause(messenger, receipt, n, r.error))
    && (r.Ok? ==> n > 0 && messenger.sleeps == n - 1 && n == EditsNeeded(messenger.outcomes, limit))
    && (r.Ok? ==> r.value == if messenger.outcomes(n - 1) == Temporary then TemporaryExhausted else Done(messenger.outcomes(n - 1)))
  }

  lemma RetriesEnd(messenger: Messenger, receipt: PendingReceipt, limit: nat)
    requires 0 < |messenger.edits| <= limit && messenger.sleeps == |messenger.edits| - 1
    requires AllTemporary(messenger.outcomes, |messenger.edits| - 1)
    requires forall k :: 0 <= k < |messenger.edits| ==> Tells(messenger, messenger.edits[k], receipt, k)
    requires |messenger.edits| == limit || messenger.outcomes(|messenger.edits| - 1) != Temporary
    ensures var last := messenger.outcomes(|messenger.edits| - 1);
      RetriesFit(messenger, receipt, limit, Ok(if last == Temporary then TemporaryExhausted else Done(last)))
  {
    EditsNeededMeans(messenger.outcomes, limit, |messenger.edits|);
  }

  lemma RetriesStop(messenger: Messenger, receipt: PendingReceipt, limit: nat, error: CompletionError)
    requires |messenger.edits| <= limit
    requires |messenger.edits| > 0 ==> AllTemporary(messenger.outcomes, |messenger.edits| - 1)
    requires forall k :: 0 <= k < |messenger.edits| ==> Tells(messenger, messenger.edits[k], receipt, k)
    requires Cause(messenger, receipt, |messenger.edits|, error)
    ensures RetriesFit(messenger, receipt, limit, Err(error))
  {
  }

  /** Every look at the clock gives a time, and none is more than a minute before
      the receipt's start. */
  ghost predicate ClockWorks(messenger: Messenger, receipt: PendingReceipt) {
    forall k: nat :: messenger.ticks(k).Some? &&
      receipt.started <= (if messenger.ticks(k).value + 60_000 > U64_MAX then U64_MAX else messenger.ticks(k).value + 60_000)
  }

  /** The k-th outcome is the first that is not temporary. */
  ghost predicate FirstOther(outcomes: nat -> EditOutcome, k: nat) {
    outcomes(k) != Temporary && forall j: nat :: j < k ==> outcomes(j) == Temporary
  }

  /** What fitting retries say: exhausted means that all attempts were used and
      all were temporary; and the first other outcome is the result. */
  lemma RetriesMean(messenger: Messenger, receipt: PendingReceipt, limit: nat, r: Result<Completion, CompletionError>)
    requires RetriesFit(messenger, receipt, limit, r) && limit > 0
    ensures |messenger.edits| <= limit
    ensures r == Ok(TemporaryExhausted) ==>
      && |messenger.edits| == limit && messenger.sleeps == limit - 1
      && forall k: nat :: k < limit ==> messenger.outcomes(k) == Temporary
    ensures r.Ok? ==>
      forall k: nat :: k < limit && FirstOther(messenger.outcomes, k) ==>
        r == Ok(Done(messenger.outcomes(k))) && |messenger.edits| == k + 1 && messenger.sleeps == k
    ensures r.Ok? && AllTemporary(messenger.outcomes, limit) ==> r == Ok(TemporaryExhausted)
    ensures r.Err? && ClockWorks(messenger, receipt) ==> r.error.StoreFailed?
  {
    hide EditsNeeded, Tells;
    if r.Ok? {
      FirstOtherIsNeeded(messenger.outcomes, limit);
      EditsNeededStops(messenger.outcomes, limit);
    }
  }

  lemma FirstOtherIsNeeded(outcomes: nat -> EditOutcome, limit: nat)
    requires limit > 0
    ensures forall k: nat :: k < limit && FirstOther(outcomes, k) ==> EditsNeeded(outcomes, limit) == k + 1
    ensures AllTemporary(outcomes, limit) ==> EditsNeeded(outcomes, limit) == limit
  {
    hide EditsNeeded;
    forall k: nat | k < limit && FirstOther(outcomes, k) ensures EditsNeeded(outcomes, limit) == k + 1 {
      EditsNeededMeans(outcomes, limit, k + 1);
    }
    if AllTemporary(outcomes, limit) {
      EditsNeededMeans(outcomes, limit, limit);
    }
  }

  lemma {:induction false} EditsNeededStops(outcomes: nat -> EditOutcome, limit: nat)
    requires limit > 0
    ensures var n := EditsNeeded(outcomes, limit); n < limit ==> outcomes(n - 1) != Temporary
    decreases limit
  {
    if limit > 1 {
      EditsNeededStops(outcomes, limit - 1);
    }
  }

  /** The outcome is final: the receipt has done its duty. */
  method Consume(directory: ReceiptDirectory, outcome: EditOutcome, ghost mine: nat)
    returns (r: Result<Completion, CompletionError>)
    requires directory.Valid() && directory.NobodyElseIs(mine)
    modifies directory`store, directory`clock, directory`history
    ensures directory.Valid() && old(directory.clock) <= directory.clock
    ensures r.Ok? ==> r.value == Done(outcome)
    ensures r.Err? ==> r.error.StoreFailed? && directory.Faulted(old(directory.clock), directory.clock)
    ensures directory.Undisturbed() && old(directory.store).receipt.Some? && r.Ok? ==>
      directory.store.receipt != old(directory.store).receipt
    ensures directory.Quiet() && r.Ok? ==> directory.store.receipt.None?
  {
    var removed := directory.RemoveBlocking(mine);
    r := if removed.Ok? then Ok(Done(outcome)) else Err(StoreFailed(removed.error));
  }

  /** One attempt: the elapsed time now, then the edit. */
  method EditOnce(messenger: Messenger, receipt: PendingReceipt) returns (r: Result<EditOutcome, CompletionError>)
    requires messenger.looks == |messenger.edits| + 1
    modifies messenger`looks, messenger`edits
    ensures r.Err? ==> messenger.edits == old(messenger.edits) && !r.error.StoreFailed?
    ensures r.Err? ==> Cause(messenger, receipt, |messenger.edits|, r.error)
    ensures r.Ok? ==>
      && |messenger.edits| == |old(messenger.edits)| + 1 && messenger.looks == |messenger.edits| + 1
      && messenger.edits[..|old(messenger.edits)|] == old(messenger.edits)
      && Tells(messenger, messenger.edits[|old(messenger.edits)|], receipt, |old(messenger.edits)|)
      && r.value == messenger.outcomes(|old(messenger.edits)|)
  {
    var now := messenger.Look();
    if now.None? {
      return Err(ClockFailed);
    }
    var elapsed := ElapsedMillis(receipt, now.value);
    if elapsed.Err? {
      return Err(ReceiptInvalid(elapsed.error));
    }
    var outcome := messenger.Edit(Intent(receipt, elapsed.value));
    return Ok(outcome);
  }

  /** Edits until an outcome is not temporary or the attempts are used up, with
      one sleep before every retry. */
  method RetryEdits(
      directory: ReceiptDirectory, messenger: Messenger, receipt: PendingReceipt, limit: nat, ghost mine: nat)
    returns (r: Result<Completion, CompletionError>)
    requires directory.Valid() && directory.NobodyElseIs(mine) && limit > 0
    requires messenger.edits == [] && messenger.sleeps == 0 && messenger.looks == 1
    modifies directory`store, directory`clock, directory`history, messenger
    ensures directory.Valid()
    ensures RetriesFit(messenger, receipt, limit, r)
    ensures r.Ok? ==> r.value.Done? || r.value.TemporaryExhausted?
    ensures r.Err? && r.error.StoreFailed? ==> directory.Faulted(old(directory.clock), directory.clock)
    ensures directory.Undisturbed() && old(directory.store).receipt.Some? && r.Ok? && r.value.Done? ==>
      directory.store.receipt != old(directory.store).receipt
    ensures directory.Quiet() && r.Ok? && r.value.Done? ==> directory.store.receipt.None?
    ensures r.Ok? && r.value.TemporaryExhausted? ==> directory.store == old(directory.store)
  {
    hide RetriesFit, EditsNeeded;
    var attempt := 0;
    while true
      invariant 0 <= attempt < limit && attempt == |messenger.edits| == messenger.sleeps
      invariant messenger.looks == attempt + 1
      invariant AllTemporary(messenger.outcomes, attempt)
      invariant directory.Valid() && directory.store == old(directory.store) && directory.clock == old(directory.clock)
      invariant forall k :: 0 <= k < attempt ==> Tells(messenger, messenger.edits[k], receipt, k)
      decreases limit - attempt
    {
      var edited := EditOnce(messenger, receipt);
      if edited.Err? {
        RetriesStop(messenger, receipt, limit, edited.error);
        return Err(edited.error);
      }
      var outcome := edited.value;
      if outcome != Temporary {
        RetriesEnd(messenger, receipt, limit);
        r := Consume(directory, outcome, mine);
        if r.Err? {
          RetriesStop(messenger, receipt, limit, r.error);
        }
        return;
      }
      if attempt + 1 == limit {
        RetriesEnd(messenger, receipt, limit);
        return Ok(TemporaryExhausted);
      }
      messenger.sleeps := messenger.sleeps + 1;
      attempt := attempt + 1;
    }
  }

  /** Completes one pending receipt with bounded retries. */
  method CompletePendingReceipt(directory: ReceiptDirectory, messenger: Messenger, maxAttempts: nat, ghost mine: nat)
    returns (r: Result<Completion, CompletionError>, ghost pending: Option<PendingReceipt>)
    requires directory.Valid() && directory.NobodyElseIs(mine)
    requires messenger.edits == [] && messenger.sleeps == 0 && messenger.looks == 0
    modifies directory`store, directory`clock, directory`history, messenger
    ensures directory.Valid()
    // Nothing is edited unless a receipt was pending, and then the retries decide.
    ensures pending.None? ==> messenger.edits == [] && messenger.sleeps == 0
    ensures pending.None? && r.Ok? ==> r.value.NothingPending? || r.value.Thrown?
    ensures pending.Some? ==> RetriesFit(messenger, pending.value, if maxAttempts < 1 then 1 else maxAttempts, r)
    // At least one attempt and at most `maxAttempts`: they are all used only by
    // temporary failures, and the first other outcome below is the result.
    ensures var limit := if maxAttempts < 1 then 1 else maxAttempts;
      && |messenger.edits| <= limit
      && (r == Ok(TemporaryExhausted) ==>
            && pending.Some? && |messenger.edits| == limit && messenger.sleeps == limit - 1
            && forall k: nat :: k < limit ==> messenger.outcomes(k) == Temporary)
      && (pending.Some? && r.Ok? ==>
            forall k: nat :: k < limit && FirstOther(messenger.outcomes, k) ==>
              r == Ok(Done(messenger.outcomes(k))) && |messenger.edits| == k + 1 && messenger.sleeps == k)
    // When clock and store work, a pending receipt always gets its result; and a
    // receipt that is there is pending in its window.
    ensures pending.Some? && ClockWorks(messenger, pending.value) && directory.Reliable() ==> r.Ok?
    ensures directory.Undisturbed() && directory.Reliable() && Holds(old(directory.store)) && messenger.ticks(0).Some? ==>
      var judged := Judge(
        |Held(old(directory.store))|, directory.decode(Held(old(directory.store))), messenger.ticks(0).value);
      if judged.Pending? then pending == Some(judged.receipt) else pending.None? && r == Ok(Thrown)
    // An error has a cause: the clock, the receipt, or the store.
    ensures r.Err? && pending.None? ==> messenger.ticks(0).None? || directory.Faulted(old(directory.clock), directory.clock)
    ensures r.Err? && pending.Some? && r.error.StoreFailed? ==> directory.Faulted(old(directory.clock), directory.clock)
    // Unless another process removes it, the receipt there is is completed; a
    // decision deletes it and temporary failures alone leave it armed.
    ensures directory.Undisturbed() && pending.Some? && Holds(old(directory.store)) ==>
      directory.decode(Held(old(directory.store))) == pending
    ensures directory.Undisturbed() && Holds(old(directory.store)) && r.Ok? ==>
      && !r.value.NothingPending?
      && (r.value.TemporaryExhausted? <==> directory.store.receipt == old(directory.store).receipt)
    // Alone.
    ensures directory.Quiet() && r.Ok? && !r.value.TemporaryExhausted? ==> directory.store.receipt.None?
    ensures directory.Quiet() && r.Ok? && r.value.TemporaryExhausted? ==>
      old(directory.store).receipt.Some? && directory.store.receipt == old(directory.store).receipt
  {
    pending := None;
    var now := messenger.Look();
    if now.None? {
      return Err(StoreFailed(Io)), pending;
    }
    var loaded := directory.LoadAt(now.value, mine);
    if loaded.Err? {
      return Err(StoreFailed(loaded.error)), pending;
    }
    match loaded.value {
      case Absent => r := Ok(NothingPending);
      case Discarded(_) => r := Ok(Thrown);
      case Pending(receipt, _) =>
        pending := Some(receipt);
        var limit := if maxAttempts < 1 then 1 else maxAttempts;
        r := RetryEdits(directory, messenger, receipt, limit, mine);
        RetriesMean(messenger, receipt, limit, r);
    }
  }
}
