/** The reboot receipt file under concurrent `arm`, `load`, `remove` and cleanup
    (src/reboot_receipt.rs): a state machine over the file operations of all
    processes, interleaved in any way, with any process dying at any point. */
module ReceiptProtocol {
  import opened Basics

  // ------------------------------------------------------- temporary names

  const TEMP_PREFIX := ".reboot-receipt-"
  const TEMP_SUFFIX := ".tmp"
  const DIGITS := "0123456789abcdef"

  /** Lower-case hexadecimal without padding, as `{:x}` prints it. */
  function Hex(n: nat): (r: string)
    ensures |r| >= 1
    ensures forall c <- r :: c in DIGITS
  {
    if n < 16 then [DIGITS[n]] else Hex(n / 16) + [DIGITS[n % 16]]
  }

  function DigitValue(c: char): nat
    requires c in DIGITS
    ensures DigitValue(c) < 16
  {
    if c <= '9' then c as nat - '0' as nat else c as nat - 'a' as nat + 10
  }

  function Value(s: string): nat
    requires forall c <- s :: c in DIGITS
  {
    if s == "" then 0 else Value(s[..|s| - 1]) * 16 + DigitValue(s[|s| - 1])
  }

  lemma {:induction false} HexValue(n: nat)
    ensures Value(Hex(n)) == n
  {
    if n >= 16 {
      HexValue(n / 16);
      assert Hex(n)[..|Hex(n)| - 1] == Hex(n / 16);
    }
  }

  function Pow16(k: nat): nat {
    if k == 0 then 1 else 16 * Pow16(k - 1)
  }

  /** A number has at most k digits exactly when it is below 16^k. */
  lemma {:induction false} HexLength(n: nat, k: nat)
    requires k >= 1
    ensures |Hex(n)| <= k <==> n < Pow16(k)
    decreases n
  {
    if n < 16 {
      Pow16AtLeast(k);
    } else if k == 1 {
      assert Pow16(1) == 16 * Pow16(0);
    } else {
      HexLength(n / 16, k - 1);
    }
  }

  lemma {:induction false} Pow16AtLeast(k: nat)
    requires k >= 1
    ensures Pow16(k) >= 16
  {
    if k > 1 {
      Pow16AtLeast(k - 1);
    }
  }

  function TempName(nonce: nat): string {
    TEMP_PREFIX + Hex(nonce) + TEMP_SUFFIX
  }

  predicate IsHexDigit(c: char) {
    '0' <= c <= '9' || 'a' <= c <= 'f' || 'A' <= c <= 'F'
  }

  predicate IsReceiptTemporary(name: string) {
    match StripPrefix(name, TEMP_PREFIX)
    case None => false
    case Some(rest) =>
      match StripSuffix(rest, TEMP_SUFFIX)
      case None => false
      case Some(nonce) => |nonce| == 32 && forall c <- nonce :: IsHexDigit(c)
  }

  /** Taken for a temporary: exactly 32 hexadecimal digits of any case between
      prefix and suffix. */
  lemma TemporaryIff(name: string)
    ensures IsReceiptTemporary(name) <==>
      exists nonce: string :: name == ".reboot-receipt-" + nonce + ".tmp" && |nonce| == 32
        && forall c <- nonce :: c in "0123456789abcdefABCDEF"
  {
    forall c: char ensures IsHexDigit(c) <==> c in "0123456789abcdefABCDEF" {
      HexDigitIff(c);
    }
    if IsReceiptTemporary(name) {
      var rest := StripPrefix(name, TEMP_PREFIX).value;
      var nonce := StripSuffix(rest, TEMP_SUFFIX).value;
      assert name == TEMP_PREFIX + (nonce + TEMP_SUFFIX) == TEMP_PREFIX + nonce + TEMP_SUFFIX;
    }
    forall nonce: string | name == ".reboot-receipt-" + nonce + ".tmp"
      ensures IsReceiptTemporary(name) <==> |nonce| == 32 && forall c <- nonce :: IsHexDigit(c)
    {
      WrappedIsTemporary(nonce);
    }
  }

  lemma HexDigitIff(c: char)
    ensures IsHexDigit(c) <==> c in "0123456789abcdefABCDEF"
  {
    var all := "0123456789abcdefABCDEF";
    if '0' <= c <= '9' {
      assert all[c as int - 48] == c;
    } else if 'a' <= c <= 'f' {
      assert all[10 + (c as int - 97)] == c;
    } else if 'A' <= c <= 'F' {
      assert all[16 + (c as int - 65)] == c;
    }
  }

  /** The name of a temporary: its nonce in lower-case digits, most significant
      first and without a leading zero, between prefix and suffix. */
  lemma TempNameMeans(nonce: nat)
    ensures TempName(nonce) == ".reboot-receipt-" + Hex(nonce) + ".tmp"
    ensures Value(Hex(nonce)) == nonce && (nonce > 0 ==> Hex(nonce)[0] != '0')
    ensures forall c <- Hex(nonce) :: c in "0123456789abcdef"
  {
    HexValue(nonce);
    if nonce > 0 {
      NoLeadingZero(nonce);
    }
  }

  lemma {:induction false} NoLeadingZero(n: nat)
    requires n > 0
    ensures Hex(n)[0] != '0'
  {
    if n >= 16 {
      NoLeadingZero(n / 16);
    } else {
      assert forall i :: 0 < i < 16 ==> DIGITS[i] != '0';
    }
  }

  lemma DigitMeans(i: nat)
    requires i < 16
    ensures "0123456789abcdef"[i] in DIGITS && DigitValue("0123456789abcdef"[i]) == i
  {
  }

  lemma TempNamesDiffer(a: nat, b: nat)
    ensures TempName(a) == TempName(b) <==> a == b
    ensures TempName(a) != "pending-reboot.json"
    ensures !IsReceiptTemporary("pending-reboot.json")
  {
    assert TempName(a)[0] == '.' && "pending-reboot.json"[0] == 'p';
    if TempName(a) == TempName(b) {
      assert Hex(a) == TempName(a)[|TEMP_PREFIX|..|TempName(a)| - |TEMP_SUFFIX|];
      assert Hex(b) == TempName(b)[|TEMP_PREFIX|..|TempName(b)| - |TEMP_SUFFIX|];
      HexValue(a);
      HexValue(b);
    }
  }

  /** Cleanup recognises a temporary of its own program exactly when the
      128-bit nonce happens to need all 32 digits. */
  lemma RecognisedIff(nonce: nat)
    requires nonce < Pow16(32)
    ensures IsReceiptTemporary(TempName(nonce)) <==> nonce >= Pow16(31)
  {
    HexLength(nonce, 32);
    HexLength(nonce, 31);
    WrappedIsTemporary(Hex(nonce));
    assert forall c <- DIGITS :: IsHexDigit(c);
  }

  lemma WrappedIsTemporary(nonce: string)
    ensures IsReceiptTemporary(TEMP_PREFIX + nonce + TEMP_SUFFIX) <==>
      |nonce| == 32 && forall c <- nonce :: IsHexDigit(c)
  {
    var name := TEMP_PREFIX + nonce + TEMP_SUFFIX;
    assert name == TEMP_PREFIX + (nonce + TEMP_SUFFIX);
    assert name[|TEMP_PREFIX|..] == nonce + TEMP_SUFFIX;
    assert (nonce + TEMP_SUFFIX)[..|nonce|] == nonce && (nonce + TEMP_SUFFIX)[|nonce|..] == TEMP_SUFFIX;
  }

  // --------------------------------------------------------------- states

  datatype Outcome = Armed | Conflict | Failed | DurabilityUnknown

  /** Ready: nothing made yet. Writing: the temporary exists and is being
      filled. Flushed: written and synced in full. Linked: installed. */
  datatype Phase = Ready | Writing | Flushed | Linked | Finished(outcome: Outcome) | Dead

  datatype Arm = Arm(bytes: Bytes, written: nat, tidied: bool, phase: Phase)

  /** One inode per arm, numbered by its nonce. `temps` are the nonces whose
      temporary name exists; `receipt` is the inode under the receipt name. */
  datatype Store = Store(
    temps: set<nat>,
    receipt: Option<nat>,
    arms: map<nat, Arm>,
    handles: map<nat, nat>,
    installed: seq<nat>,
    deletions: nat,
    results: seq<(nat, Bytes)>)

  const EMPTY := Store({}, None, map[], map[], [], 0, [])

  /** What reading inode n would give now. */
  function Content(s: Store, n: nat): Bytes
    requires n in s.arms && s.arms[n].written <= |s.arms[n].bytes|
  {
    s.arms[n].bytes[..s.arms[n].written]
  }

  datatype Step =
    | Begin(n: nat, bytes: Bytes)      // `arm` is called and draws its nonce
    | CreateTemp(n: nat)
    | WriteSome(n: nat, upTo: nat)
    | Flush(n: nat)
    | Link(n: nat)
    | Unlink(n: nat)                   // `arm` removes its own temporary
    | Report(n: nat, durable: bool)    // after the link: the sync succeeded or not
    | Abandon(n: nat)                  // any error before the link
    | Die(n: nat)
    | CleanUp(n: nat)                  // another process sweeps temporaries
    | Open(reader: nat)
    | Read(reader: nat)
    | Remove

  function WithArm(s: Store, n: nat, a: Arm): Store {
    s.(arms := s.arms[n := a])
  }

  /** One file operation; one that is not possible changes nothing. */
  function Do(s: Store, step: Step): Store {
    match step
    case Begin(n, bytes) =>
      if n in s.arms then s else WithArm(s, n, Arm(bytes, 0, false, Ready))
    case CreateTemp(n) =>
      if n in s.arms && s.arms[n].phase.Ready? then
        WithArm(s, n, s.arms[n].(phase := Writing)).(temps := s.temps + {n})
      else s
    case WriteSome(n, upTo) =>
      if n in s.arms && s.arms[n].phase.Writing? && s.arms[n].written <= upTo <= |s.arms[n].bytes| then
        WithArm(s, n, s.arms[n].(written := upTo))
      else s
    case Flush(n) =>
      if n in s.arms && s.arms[n].phase.Writing? && s.arms[n].written == |s.arms[n].bytes| then
        WithArm(s, n, s.arms[n].(phase := Flushed))
      else s
    case Link(n) =>
      if n in s.arms && s.arms[n].phase.Flushed? then
        if n !in s.temps then WithArm(s, n, s.arms[n].(phase := Finished(Failed)))
        else if s.receipt.Some? then WithArm(s, n, s.arms[n].(phase := Finished(Conflict)))
        else WithArm(s, n, s.arms[n].(phase := Linked)).(receipt := Some(n), installed := s.installed + [n])
      else s
    case Unlink(n) =>
      if n in s.arms && n in s.temps && (s.arms[n].phase.Linked? || s.arms[n].phase.Finished?) then
        WithArm(s, n, s.arms[n].(tidied := true)).(temps := s.temps - {n})
      else s
    case Report(n, durable) =>
      if n in s.arms && s.arms[n].phase.Linked? then
        WithArm(s, n, s.arms[n].(
          phase := Finished(if durable && s.arms[n].tidied then Armed else DurabilityUnknown)))
      else s
    case Abandon(n) =>
      if n in s.arms && (s.arms[n].phase.Ready? || s.arms[n].phase.Writing? || s.arms[n].phase.Flushed?) then
        WithArm(s, n, s.arms[n].(phase := Finished(Failed)))
      else s
    case Die(n) =>
      if n in s.arms && !s.arms[n].phase.Finished? then WithArm(s, n, s.arms[n].(phase := Dead)) else s
    case CleanUp(n) =>
      if IsReceiptTemporary(TempName(n)) then s.(temps := s.temps - {n}) else s
    case Open(reader) =>
      if s.receipt.Some? then s.(handles := s.handles[reader := s.receipt.value]) else s
    case Read(reader) =>
      if reader in s.handles && s.handles[reader] in s.arms
         && s.arms[s.handles[reader]].written <= |s.arms[s.handles[reader]].bytes| then
        s.(results := s.results + [(s.handles[reader], Content(s, s.handles[reader]))])
      else s
    case Remove =>
      if s.receipt.Some? then s.(receipt := None, deletions := s.deletions + 1) else s
  }

  function Run(s: Store, steps: seq<Step>): Store
    decreases |steps|
  {
    if steps == [] then s else Do(Run(s, steps[..|steps| - 1]), steps[|steps| - 1])
  }

  // ------------------------------------------------------------ invariant

  /** An arm whose inode will never be written again. */
  predicate Sealed(a: Arm) {
    a.written == |a.bytes| && !a.phase.Ready? && !a.phase.Writing?
  }

  predicate IsInstalled(phase: Phase) {
    phase.Linked? || phase == Finished(Armed) || phase == Finished(DurabilityUnknown)
  }

  predicate NotInstalled(phase: Phase) {
    phase.Ready? || phase.Writing? || phase.Flushed? || phase == Finished(Conflict) || phase == Finished(Failed)
  }

  ghost predicate ArmConsistent(s: Store, n: nat)
    requires n in s.arms
  {
    var a := s.arms[n];
    && a.written <= |a.bytes|
    && (a.phase.Ready? ==> a.written == 0 && !a.tidied && n !in s.temps)
    && (a.phase.Flushed? || a.phase.Linked? ==> a.written == |a.bytes|)
    && (a.tidied ==> n !in s.temps)
    && (IsInstalled(a.phase) ==> n in s.installed)
    && (NotInstalled(a.phase) ==> n !in s.installed)
    && (a.phase == Finished(Armed) ==> a.tidied)
    && (n in s.installed ==> Sealed(a))
  }

  /** The receipt name is absent or holds all the bytes of one installed arm;
      every installation but at most one was deleted again; nothing partial is
      ever read. */
  ghost predicate Inv(s: Store) {
    && (forall n :: n in s.arms ==> ArmConsistent(s, n))
    && (forall n :: n in s.temps ==> n in s.arms)
    && (forall n :: n in s.installed ==> n in s.arms)
    && Counted(s) && Observed(s)
  }

  /** The arm whose own operation a step is. */
  function Actor(step: Step): Option<nat> {
    match step
    case Begin(n, _) => Some(n)
    case CreateTemp(n) => Some(n)
    case WriteSome(n, _) => Some(n)
    case Flush(n) => Some(n)
    case Link(n) => Some(n)
    case Unlink(n) => Some(n)
    case Report(n, _) => Some(n)
    case Abandon(n) => Some(n)
    case Die(n) => Some(n)
    case _ => None
  }

  /** A step of someone else may take an arm's temporary away; nothing more. */
  lemma OthersKeepArm(s: Store, step: Step, m: nat)
    requires Actor(step) != Some(m)
    ensures m in Do(s, step).arms <==> m in s.arms
    ensures m in s.arms ==> Do(s, step).arms[m] == s.arms[m]
    ensures m in Do(s, step).temps ==> m in s.temps
    ensures m in Do(s, step).installed <==> m in s.installed
  {
  }

  lemma OwnStepKeepsArm(s: Store, step: Step, m: nat)
    requires Inv(s) && Actor(step) == Some(m) && m in s.arms
    ensures m in Do(s, step).arms && ArmConsistent(Do(s, step), m)
  {
    assert ArmConsistent(s, m);
    assert m in Do(s, step).installed ==> m in s.installed || (step.Link? && Do(s, step).arms[m].phase.Linked?);
    if Do(s, step).installed != s.installed {
      assert Do(s, step).installed[|s.installed|] == m;
    }
  }

  lemma StepKeepsArms(s: Store, step: Step, m: nat)
    requires Inv(s) && m in Do(s, step).arms
    ensures ArmConsistent(Do(s, step), m)
  {
    if Actor(step) != Some(m) {
      OthersKeepArm(s, step, m);
      assert ArmConsistent(s, m);
    } else if m in s.arms {
      OwnStepKeepsArm(s, step, m);
    } else {
      assert m !in s.temps && m !in s.installed;
    }
  }

  /** The part of the invariant that does not speak of single arms. */
  ghost predicate Counted(s: Store) {
    && NoDuplicates(s.installed)
    && (s.receipt.Some? ==> s.installed != [] && s.receipt.value == s.installed[|s.installed| - 1])
    && |s.installed| - s.deletions == (if s.receipt.Some? then 1 else 0)
  }

  ghost predicate Observed(s: Store) {
    && (forall r :: r in s.handles ==> s.handles[r] in s.installed)
    && (forall x :: x in s.results ==> x.0 in s.installed && x.0 in s.arms && x.1 == s.arms[x.0].bytes)
  }

  lemma StepKeepsCount(s: Store, step: Step)
    requires Inv(s)
    ensures Counted(Do(s, step))
  {
    if step.Link? && step.n in s.arms {
      assert ArmConsistent(s, step.n);
      ElementsAppend(s.installed, step.n);
    }
  }

  /** Bytes of an arm never change, and an installation is never forgotten. */
  lemma StepKeepsBytes(s: Store, step: Step)
    ensures forall n :: n in s.arms ==> n in Do(s, step).arms && Do(s, step).arms[n].bytes == s.arms[n].bytes
    ensures s.installed <= Do(s, step).installed
    ensures forall n :: n in s.installed ==> n in Do(s, step).installed
  {
  }

  lemma StepKeepsObserved(s: Store, step: Step)
    requires Inv(s)
    ensures Observed(Do(s, step))
  {
    StepKeepsBytes(s, step);
    if step.Read? && step.reader in s.handles {
      assert ArmConsistent(s, s.handles[step.reader]);
    }
  }

  lemma StepKeepsInv(s: Store, step: Step)
    requires Inv(s)
    ensures Inv(Do(s, step))
  {
    var s' := Do(s, step);
    forall m | m in s'.arms ensures ArmConsistent(s', m) {
      StepKeepsArms(s, step, m);
    }
    StepKeepsCount(s, step);
    StepKeepsObserved(s, step);
    StepKeepsNames(s, step);
  }

  lemma StepKeepsNames(s: Store, step: Step)
    requires Inv(s)
    ensures forall n :: n in Do(s, step).temps ==> n in Do(s, step).arms
    ensures forall n :: n in Do(s, step).installed ==> n in Do(s, step).arms
  {
  }

  // -------------------------------------------------- every run of the store

  lemma {:induction false} RunKeepsInv(s: Store, steps: seq<Step>)
    requires Inv(s)
    ensures Inv(Run(s, steps))
    decreases |steps|
  {
    if steps != [] {
      RunKeepsInv(s, steps[..|steps| - 1]);
      StepKeepsInv(Run(s, steps[..|steps| - 1]), steps[|steps| - 1]);
    }
  }

  lemma RunAppend(s: Store, steps: seq<Step>, step: Step)
    ensures Run(s, steps + [step]) == Do(Run(s, steps), step)
  {
    assert (steps + [step])[..|steps|] == steps;
  }

  /** Whatever the processes do and however they are interleaved or killed: the
      receipt file is absent or holds every byte of exactly one armed receipt,
      and installations less deletions count the file. */
  lemma ReceiptIsWhole(steps: seq<Step>)
    ensures var s := Run(EMPTY, steps);
      && |s.installed| - s.deletions == (if s.receipt.Some? then 1 else 0)
      && NoDuplicates(s.installed)
      && (s.receipt.Some? ==>
            && s.receipt.value in s.installed && s.receipt.value in s.arms
            && s.arms[s.receipt.value].written <= |s.arms[s.receipt.value].bytes|
            && Content(s, s.receipt.value) == s.arms[s.receipt.value].bytes)
  {
    RunKeepsInv(EMPTY, steps);
    var s := Run(EMPTY, steps);
    if s.receipt.Some? {
      assert ArmConsistent(s, s.receipt.value);
    }
  }

  /** What `arm` reports is what happened: `Armed` and `DurabilityUnknown` mean
      installed, `Conflict` and an error mean never installed, and after
      `Armed` no temporary is left. */
  lemma OutcomesAreTrue(steps: seq<Step>, n: nat)
    requires n in Run(EMPTY, steps).arms && Run(EMPTY, steps).arms[n].phase.Finished?
    ensures var s := Run(EMPTY, steps);
      && (n in s.installed <==>
            s.arms[n].phase.outcome == Armed || s.arms[n].phase.outcome == DurabilityUnknown)
      && (s.arms[n].phase.outcome == Armed ==> n !in s.temps)
  {
    RunKeepsInv(EMPTY, steps);
    assert ArmConsistent(Run(EMPTY, steps), n);
  }

  /** Every load that got bytes got all bytes of one installed receipt, also
      when the file was deleted or replaced between opening and reading. */
  lemma ReadsAreWhole(steps: seq<Step>, i: nat)
    requires i < |Run(EMPTY, steps).results|
    ensures var s := Run(EMPTY, steps);
      s.results[i].0 in s.installed && s.results[i].0 in s.arms && s.results[i].1 == s.arms[s.results[i].0].bytes
  {
    RunKeepsInv(EMPTY, steps);
    assert Run(EMPTY, steps).results[i] in Run(EMPTY, steps).results;
  }

  /** Only a removal takes an installed receipt away, and none replaces it: an
      `arm` that meets it reports `Conflict` and leaves it alone. */
  lemma OnlyRemoveChangesReceipt(s: Store, step: Step)
    requires Inv(s) && s.receipt.Some?
    ensures Do(s, step).receipt == (if step.Remove? then None else s.receipt)
    ensures step.Link? && step.n in s.arms && s.arms[step.n].phase.Flushed? && step.n in s.temps ==>
      Do(s, step).arms[step.n].phase == Finished(Conflict) && Do(s, step).installed == s.installed
    ensures !step.Remove? ==> Content(s, s.receipt.value) == Content(Do(s, step), s.receipt.value)
  {
    assert ArmConsistent(s, s.receipt.value);
    StepKeepsInv(s, step);
    assert ArmConsistent(Do(s, step), s.receipt.value);
  }

  /** The link is the one moment that decides: it fails when the temporary was
      swept, meets a conflict when there is a receipt, and installs otherwise. */
  lemma LinkDecides(s: Store, n: nat)
    requires n in s.arms && s.arms[n].phase.Flushed?
    ensures var s' := Do(s, Link(n));
      && n in s'.arms
      && (s'.arms[n].phase == Finished(Failed) <==> n !in s.temps)
      && (s'.arms[n].phase == Finished(Conflict) <==> n in s.temps && s.receipt.Some?)
      && (s'.arms[n].phase == Linked <==> n in s.temps && s.receipt.None?)
      && s'.receipt == (if s'.arms[n].phase == Linked then Some(n) else s.receipt)
      && s'.temps == s.temps && s'.deletions == s.deletions
  {
  }

  /** A process that dies before it reported does nothing for its arm any more:
      the arm, and whether its temporary is there, change by others only. */
  lemma DeadStaysDead(s: Store, n: nat, step: Step)
    requires n in s.arms && !s.arms[n].phase.Finished?
    ensures n in Do(s, Die(n)).arms && Do(s, Die(n)).arms[n] == s.arms[n].(phase := Dead)
    ensures Do(s, Die(n)) == s.(arms := Do(s, Die(n)).arms)
    ensures var dead := Do(s, Die(n));
      Actor(step) == Some(n) ==> Do(dead, step) == dead
  {
  }

  /** A file that is open is read whole, whatever happens to its name: every
      byte of the receipt there was when it was opened. */
  lemma OpenedIsRead(s: Store, reader: nat, steps: seq<Step>)
    requires Inv(s) && s.receipt.Some? && Open(reader) !in steps
    ensures s.receipt.value in s.arms
    ensures var n, before := s.receipt.value, Run(Do(s, Open(reader)), steps);
      && reader in before.handles && before.handles[reader] == n
      && Do(before, Read(reader)).results == before.results + [(n, s.arms[n].bytes)]
  {
    hide Inv, Do, Run;
    ReceiptOpens(s, reader);
    var n, after := s.receipt.value, Do(s, Open(reader));
    StepKeepsInv(s, Open(reader));
    StepIsOnward(s, Open(reader));
    HandleStays(after, reader, steps);
    RunKeepsInv(after, steps);
    RunIsOnward(after, steps);
    HandleReads(Run(after, steps), reader);
  }

  lemma ReceiptOpens(s: Store, reader: nat)
    requires Inv(s) && s.receipt.Some?
    ensures s.receipt.value in s.arms
    ensures reader in Do(s, Open(reader)).handles && Do(s, Open(reader)).handles[reader] == s.receipt.value
  {
    assert s.receipt.value in s.installed;
  }

  lemma HandleReads(s: Store, reader: nat)
    requires Inv(s) && reader in s.handles
    ensures s.handles[reader] in s.arms
    ensures Do(s, Read(reader)).results == s.results + [(s.handles[reader], s.arms[s.handles[reader]].bytes)]
  {
    assert s.handles[reader] in s.installed;
    assert ArmConsistent(s, s.handles[reader]);
    var arm := s.arms[s.handles[reader]];
    assert arm.bytes[..|arm.bytes|] == arm.bytes;
  }

  lemma HandleStep(s: Store, reader: nat, step: Step)
    requires reader in s.handles && step != Open(reader)
    ensures reader in Do(s, step).handles && Do(s, step).handles[reader] == s.handles[reader]
  {
  }

  lemma {:induction false} HandleStays(s: Store, reader: nat, steps: seq<Step>)
    requires reader in s.handles && Open(reader) !in steps
    ensures reader in Run(s, steps).handles && Run(s, steps).handles[reader] == s.handles[reader]
    decreases |steps|
  {
    if steps != [] {
      var init, last := steps[..|steps| - 1], steps[|steps| - 1];
      assert steps == init + [last];
      HandleStays(s, reader, init);
      HandleStep(Run(s, init), reader, last);
    }
  }

  /** Once reported, an outcome stands. */
  lemma FinishedIsFinal(s: Store, step: Step, n: nat)
    requires n in s.arms && s.arms[n].phase.Finished?
    ensures n in Do(s, step).arms && Do(s, step).arms[n].phase == s.arms[n].phase
  {
  }

  // ------------------------------------- deleting the receipt that was judged

  /** What later stores keep of earlier ones. */
  ghost predicate Onward(a: Store, b: Store) {
    && a.installed <= b.installed && a.deletions <= b.deletions
    && forall n :: n in a.arms ==> n in b.arms && b.arms[n].bytes == a.arms[n].bytes
  }

  lemma OnwardTransitive(a: Store, b: Store, c: Store)
    requires Onward(a, b) && Onward(b, c)
    ensures Onward(a, c)
  {
  }

  lemma StepIsOnward(s: Store, step: Step)
    ensures Onward(s, Do(s, step))
    ensures !step.Remove? ==> Do(s, step).deletions == s.deletions
  {
    StepKeepsBytes(s, step);
  }

  /** Deleted for good: the same receipt is never the receipt again. */
  lemma DeletedIsGone(a: Store, b: Store)
    requires Inv(a) && Inv(b) && Onward(a, b) && a.receipt.Some? && b.deletions > a.deletions
    ensures b.receipt != a.receipt
  {
    assert b.installed[|a.installed| - 1] == a.receipt.value;
    assert b.receipt.Some? ==> |a.installed| < |b.installed|;
  }

  lemma {:induction false} RunIsOnward(s: Store, steps: seq<Step>)
    ensures Onward(s, Run(s, steps))
    decreases |steps|
  {
    if steps != [] {
      var init := steps[..|steps| - 1];
      RunIsOnward(s, init);
      StepIsOnward(Run(s, init), steps[|steps| - 1]);
      OnwardTransitive(s, Run(s, init), Run(s, steps));
    }
  }

  /** A receipt that was read is still the receipt after any steps of any
      processes if and only if none of them was a removal. So what a load
      discards, or a completion consumes, is the receipt it judged exactly when
      nobody removed one in between. */
  lemma {:induction false} JudgedStaysIff(s: Store, steps: seq<Step>)
    requires Inv(s) && s.receipt.Some?
    ensures Run(s, steps).receipt == s.receipt <==> forall step <- steps :: !step.Remove?
    ensures (exists step <- steps :: step.Remove?) ==> Run(s, steps).deletions > s.deletions
    decreases |steps|
  {
    if steps != [] {
      var init, last := steps[..|steps| - 1], steps[|steps| - 1];
      assert steps == init + [last];
      JudgedStaysIff(s, init);
      RunKeepsInv(s, init);
      StepKeepsInv(Run(s, init), last);
      RunIsOnward(s, steps);
      StepIsOnward(Run(s, init), last);
      if forall step <- init :: !step.Remove? {
        OnlyRemoveChangesReceipt(Run(s, init), last);
      }
      if Run(s, steps).deletions > s.deletions {
        DeletedIsGone(s, Run(s, steps));
      }
    }
  }

  /** Otherwise another receipt can be in its place, and be deleted unread. */
  lemma RearmedInBetween(s: Store, m: nat)
    requires Inv(s) && s.receipt.Some? && m !in s.arms
    ensures Run(s, [Remove, Begin(m, []), CreateTemp(m), Flush(m), Link(m)]).receipt == Some(m)
  {
    hide Inv;
    RunOfFive(s, Remove, Begin(m, []), CreateTemp(m), Flush(m), Link(m));
    var s1 := Do(s, Remove);
    assert s1.receipt.None? && m !in s1.arms;
    var s2 := Do(s1, Begin(m, []));
    assert s2.receipt.None? && m in s2.arms && s2.arms[m] == Arm([], 0, false, Ready);
    var s3 := Do(s2, CreateTemp(m));
    assert s3.receipt.None? && m in s3.temps && m in s3.arms && s3.arms[m] == Arm([], 0, false, Writing);
    var s4 := Do(s3, Flush(m));
    assert s4.receipt.None? && m in s4.temps && m in s4.arms && s4.arms[m] == Arm([], 0, false, Flushed);
  }

  lemma RunOfFive(s: Store, a: Step, b: Step, c: Step, d: Step, e: Step)
    ensures Run(s, [a, b, c, d, e]) == Do(Do(Do(Do(Do(s, a), b), c), d), e)
  {
    hide Do;
    RunAppend(s, [], a);
    assert [] + [a] == [a];
    RunAppend(s, [a], b);
    assert [a] + [b] == [a, b];
    RunAppend(s, [a, b], c);
    assert [a, b] + [c] == [a, b, c];
    RunAppend(s, [a, b, c], d);
    assert [a, b, c] + [d] == [a, b, c, d];
    RunAppend(s, [a, b, c, d], e);
    assert [a, b, c, d] + [e] == [a, b, c, d, e];
  }
}
