/**
 The credential rotation protocol as a small-step system. Any number of Rotate and Disable operations run
 against one shared store; a step is one store command, which may be refused, take effect without its answer
 arriving, or succeed. Processes may crash and a lock may expire at any moment.
 */
module CredentialProtocol {
  import opened Int64
  import opened Wrappers
  import opened Text
  import opened CredentialNames
  import opened CredentialEnvelope

  datatype Value = Text(text: string) | Document(envelope: Envelope)

  type Store = map<Key, Value>

  datatype Reply = Answered | Refused | Unanswered

  datatype Kind = Rotate(key: KeyMaterial, plain: Credentials) | Disable

  /** An outcome whose audit record could not be confirmed is answered as an error, whatever it was. */
  datatype Outcome = Succeeded(version: nat) | Failed(code: string) | Unrecorded(of: Outcome)

  datatype Phase =
    | Locking
    | Reading
    | Allocating(current: nat, candidate: int)
    | Verifying(current: nat, version: nat, envelope: Envelope)
    | Activating(current: nat, version: nat)
    | Deleting(current: nat)
    | Reporting(outcome: Outcome, deferred: bool)
    | Releasing(outcome: Outcome)
    | Done(outcome: Outcome)
    | Crashed

  datatype Operation = Operation(kind: Kind, account: Account, token: string, phase: Phase)

  datatype AuditEvent = AuditEvent(op: nat, account: Account, rotation: bool, outcome: Option<Outcome>)

  /** What Try wrote: kept only to state properties. */
  datatype Creation = Creation(envelope: Envelope, key: KeyMaterial, plain: Credentials)

  /** `created` and `installed` are history: every slot ever written and every version ever made current. */
  datatype State = State(kv: Store, ops: map<nat, Operation>, tokens: set<string>, audit: seq<AuditEvent>,
                         created: map<Account, seq<Creation>>, installed: map<Account, seq<nat>>)

  const INIT := State(map[], map[], {}, [], map[], map[])

  datatype Action =
    | Begin(op: nat, kind: Kind, account: Account, token: string)
    | Acquire(op: nat, reply: Reply)
    | Read(op: nat, reply: Reply)
    | Try(op: nat, nonce: nat, reply: Reply)
    | Exhaust(op: nat)
    | Verify(op: nat, reply: Reply)
    | Activate(op: nat, reply: Reply)
    | Delete(op: nat, reply: Reply)
    | Report(op: nat, reply: Reply)
    | Release(op: nat, reply: Reply)
    | Crash(op: nat)
    | Expire(account: Account)

  function Created(s: State, a: Account): seq<Creation> {
    if a in s.created then s.created[a] else []
  }

  function Installed(s: State, a: Account): seq<nat> {
    if a in s.installed then s.installed[a] else []
  }

  function CurrentKey(a: Account): Key { Key(a, Current) }
  function VersionKey(a: Account, v: nat): Key { Key(a, Version(v)) }
  function LockKey(a: Account): Key { Key(a, Lock) }

  /** The current pointer: 0 when absent, None when it is not a positive number. */
  function CurrentVersion(kv: Store, a: Account): Option<nat> {
    if CurrentKey(a) !in kv then Some(0)
    else match kv[CurrentKey(a)]
      case Text(t) =>
        var parsed := ParseInt64(TrimSpace(t));
        if parsed.Some? && parsed.value >= 1 then Some(parsed.value) else None
      case Document(_) => None
  }

  predicate OwnsLock(kv: Store, a: Account, token: string) {
    LockKey(a) in kv && kv[LockKey(a)] == Text(token)
  }

  predicate MoreCandidates(current: nat, candidate: int) {
    candidate <= Wrap(current + 1000)
  }

  /** What is wrong with the read-back of a freshly written slot; nothing, before the pointer is moved. */
  function ReadBackError(kv: Store, a: Account, version: nat, envelope: Envelope, key: KeyMaterial): Option<string> {
    if VersionKey(a, version) !in kv || kv[VersionKey(a, version)] != Document(envelope) then Some("VERSION_VERIFY_FAILED")
    else if !Validates(envelope, a, version, key.id) then Some("ENVELOPE_IDENTITY_MISMATCH")
    else if Decrypt(envelope, key).None? then Some("ENVELOPE_DECRYPT_VERIFY_FAILED")
    else None
  }

  predicate Enabled(s: State, act: Action) {
    match act
    case Begin(op, kind, a, token) =>
      op !in s.ops && ValidAccount(a) && token !in s.tokens &&
      (kind.Rotate? ==> ValidKeyId(kind.key.id) && ValidCredentials(kind.plain))
    case Expire(a) => true
    case _ =>
      act.op in s.ops && var o := s.ops[act.op];
      match act
      case Acquire(_, _) => o.phase.Locking?
      case Read(_, _) => o.phase.Reading?
      case Try(_, _, _) => o.phase.Allocating? && o.kind.Rotate? && MoreCandidates(o.phase.current, o.phase.candidate)
      case Exhaust(_) => o.phase.Allocating? && !MoreCandidates(o.phase.current, o.phase.candidate)
      case Verify(_, _) => o.phase.Verifying? && o.kind.Rotate?
      case Activate(_, _) => o.phase.Activating?
      case Delete(_, _) => o.phase.Deleting?
      case Report(_, _) => o.phase.Reporting?
      case Release(_, _) => o.phase.Releasing?
      case _ => !o.phase.Done?
  }

  // What each command does to the store

  function SetLock(s: State, a: Account, token: string): State {
    s.(kv := s.kv[LockKey(a) := Text(token)])
  }

  function DropLock(s: State, a: Account): State {
    s.(kv := s.kv - {LockKey(a)})
  }

  function WriteSlot(s: State, a: Account, version: nat, c: Creation): State {
    s.(kv := s.kv[VersionKey(a, version) := Document(c.envelope)], created := s.created[a := Created(s, a) + [c]])
  }

  function MovePointer(s: State, a: Account, version: nat): State {
    s.(kv := s.kv[CurrentKey(a) := Text(FormatNat(version))], installed := s.installed[a := Installed(s, a) + [version]])
  }

  function RemovePointer(s: State, a: Account): State {
    s.(kv := s.kv - {CurrentKey(a)})
  }

  function Audit(s: State, e: AuditEvent): State {
    s.(audit := s.audit + [e])
  }

  function Goto(s: State, op: nat, phase: Phase): State
    requires op in s.ops
  {
    s.(ops := s.ops[op := s.ops[op].(phase := phase)])
  }

  function FailWith(s: State, op: nat, code: string, deferred: bool): State
    requires op in s.ops
  {
    Goto(s, op, Reporting(Failed(code), deferred))
  }

  function Step(s: State, act: Action): State
    requires Enabled(s, act)
  {
    match act
    case Try(op, nonce, reply) =>
      var o := s.ops[op];
      StepTry(s, op, Encrypt(o.account, o.phase.candidate, o.kind.key, o.kind.plain, nonce), reply)
    case _ => StepPlain(s, act)
  }

  function StepPlain(s: State, act: Action): State
    requires Enabled(s, act) && !act.Try?
  {
    match act
    case Begin(op, kind, a, token) =>
      s.(ops := s.ops[op := Operation(kind, a, token, Locking)], tokens := s.tokens + {token},
         audit := s.audit + [AuditEvent(op, a, kind.Rotate?, None)])
    case Acquire(op, reply) => StepAcquire(s, op, reply)
    case Read(op, reply) => StepRead(s, op, CurrentVersion(s.kv, s.ops[op].account), reply)
    case Exhaust(op) => FailWith(s, op, "VERSION_EXHAUSTED", true)
    case Verify(op, reply) => StepVerify(s, op, reply)
    case Activate(op, reply) => StepActivate(s, op, reply)
    case Delete(op, reply) => StepDelete(s, op, reply)
    case Report(op, reply) => StepReport(s, op, reply)
    case Release(op, reply) =>
      var o := s.ops[op];
      var r := Goto(s, op, Done(o.phase.outcome));
      if !reply.Refused? && OwnsLock(s.kv, o.account, o.token) then DropLock(r, o.account) else r
    case Crash(op) => Goto(s, op, Crashed)
    case Expire(a) => DropLock(s, a)
  }

  function StepAcquire(s: State, op: nat, reply: Reply): State
    requires op in s.ops
  {
    var o := s.ops[op];
    var free := LockKey(o.account) !in s.kv;
    var s' := if free && !reply.Refused? then SetLock(s, o.account, o.token) else s;
    if !reply.Answered? then FailWith(s', op, "LOCK_FAILED", false)
    else if !free then FailWith(s', op, if o.kind.Rotate? then "ROTATION_IN_PROGRESS" else "LOCK_FAILED", false)
    else Goto(s', op, Reading)
  }

  function StepRead(s: State, op: nat, current: Option<nat>, reply: Reply): State
    requires op in s.ops
  {
    var o := s.ops[op];
    if !reply.Answered? || current.None? then FailWith(s, op, "CURRENT_READ_FAILED", true)
    else if o.kind.Rotate? then Goto(s, op, Allocating(current.value, Wrap(current.value + 1)))
    else Goto(s, op, Deleting(current.value))
  }

  function StepTry(s: State, op: nat, sealed: Option<Envelope>, reply: Reply): State
    requires op in s.ops && s.ops[op].phase.Allocating? && s.ops[op].kind.Rotate?
    requires sealed.Some? ==> s.ops[op].phase.candidate >= 1
  {
    var o := s.ops[op];
    var a, candidate, current := o.account, o.phase.candidate, o.phase.current;
    if sealed.None? then FailWith(s, op, "ENCRYPT_FAILED", true)
    else
      var free := VersionKey(a, candidate) !in s.kv;
      var s' := if free && !reply.Refused?
                then WriteSlot(s, a, candidate, Creation(sealed.value, o.kind.key, o.kind.plain))
                else s;
      if !reply.Answered? then FailWith(s', op, "VERSION_WRITE_FAILED", true)
      else if free then Goto(s', op, Verifying(current, candidate, sealed.value))
      else Goto(s', op, Allocating(current, candidate + 1))
  }

  function StepVerify(s: State, op: nat, reply: Reply): State
    requires op in s.ops && s.ops[op].phase.Verifying? && s.ops[op].kind.Rotate?
  {
    var o := s.ops[op];
    var error := ReadBackError(s.kv, o.account, o.phase.version, o.phase.envelope, o.kind.key);
    if !reply.Answered? then FailWith(s, op, "VERSION_VERIFY_FAILED", true)
    else if error.Some? then FailWith(s, op, error.value, true)
    else Goto(s, op, Activating(o.phase.current, o.phase.version))
  }

  function StepActivate(s: State, op: nat, reply: Reply): State
    requires op in s.ops && s.ops[op].phase.Activating?
  {
    var o := s.ops[op];
    var a, version := o.account, o.phase.version;
    var owner := OwnsLock(s.kv, a, o.token);
    var s' := if owner && !reply.Refused? then MovePointer(s, a, version) else s;
    if !reply.Answered? || !owner then FailWith(s', op, "ACTIVATION_FAILED", true)
    else Goto(s', op, Reporting(Succeeded(version), true))
  }

  function StepDelete(s: State, op: nat, reply: Reply): State
    requires op in s.ops && s.ops[op].phase.Deleting?
  {
    var o := s.ops[op];
    var owner := OwnsLock(s.kv, o.account, o.token);
    var s' := if owner && !reply.Refused? then RemovePointer(s, o.account) else s;
    if !reply.Answered? || !owner then FailWith(s', op, "DISABLE_FAILED", true)
    else Goto(s', op, Reporting(Succeeded(o.phase.current), true))
  }

  /** A failing audit write changes the answer, not the deferred release. */
  function StepReport(s: State, op: nat, reply: Reply): State
    requires op in s.ops && s.ops[op].phase.Reporting?
  {
    var o := s.ops[op];
    var answer := if reply.Answered? then o.phase.outcome else Unrecorded(o.phase.outcome);
    var r := Goto(s, op, if o.phase.deferred then Releasing(answer) else Done(answer));
    if reply.Refused? then r else Audit(r, RecordOf(op, o))
  }

  function RecordOf(op: nat, o: Operation): AuditEvent
    requires o.phase.Reporting?
  {
    AuditEvent(op, o.account, o.kind.Rotate?, Some(o.phase.outcome))
  }

  // The invariant

  predicate Increasing(xs: seq<nat>) {
    forall i, j | 0 <= i < j < |xs| :: xs[i] < xs[j]
  }

  predicate SlotAt(kv: Store, a: Account, i: nat, c: Creation) {
    VersionKey(a, i + 1) in kv && kv[VersionKey(a, i + 1)] == Document(c.envelope)
  }

  /** The slots of an account are exactly 1..n, each holding what its creator wrote. */
  ghost predicate SlotsOk(kv: Store, a: Account, created: seq<Creation>) {
    && |created| < INT64_LIMIT
    && (created != [] ==> ValidAccount(a))
    && (forall v: nat :: VersionKey(a, v) in kv ==> 1 <= v <= |created|)
    && (forall i | 0 <= i < |created| :: SlotAt(kv, a, i, created[i]))
  }

  predicate InstalledOk(installed: seq<nat>, slots: nat) {
    Increasing(installed) && forall i | 0 <= i < |installed| :: 1 <= installed[i] <= slots
  }

  predicate PointerOk(kv: Store, a: Account, installed: seq<nat>) {
    CurrentKey(a) in kv ==> installed != [] && kv[CurrentKey(a)] == Text(FormatNat(installed[|installed| - 1]))
  }

  predicate TokenKnown(kv: Store, a: Account, tokens: set<string>) {
    LockKey(a) in kv ==> kv[LockKey(a)].Text? && kv[LockKey(a)].text in tokens
  }

  ghost predicate AccountOk(s: State, a: Account) {
    && SlotsOk(s.kv, a, Created(s, a))
    && InstalledOk(Installed(s, a), |Created(s, a)|)
    && PointerOk(s.kv, a, Installed(s, a))
    && TokenKnown(s.kv, a, s.tokens)
  }

  predicate PointerIs(kv: Store, a: Account, current: nat) {
    if current == 0 then CurrentKey(a) !in kv
    else CurrentKey(a) in kv && kv[CurrentKey(a)] == Text(FormatNat(current))
  }

  /** While an operation still owns its lock, the pointer is the one it read. */
  predicate Undisturbed(s: State, o: Operation, current: nat) {
    OwnsLock(s.kv, o.account, o.token) ==> PointerIs(s.kv, o.account, current)
  }

  /** While an operation still owns its lock, its new slot is above everything ever installed. */
  predicate Newest(s: State, o: Operation, version: nat) {
    OwnsLock(s.kv, o.account, o.token) ==> forall v | v in Installed(s, o.account) :: v < version
  }

  predicate OperationOk(s: State, o: Operation) {
    && ValidAccount(o.account) && o.token in s.tokens
    && match o.phase
       case Allocating(current, candidate) =>
         && o.kind.Rotate?
         && current <= |Created(s, o.account)| && current < INT64_LIMIT
         && (MoreCandidates(current, candidate) ==> candidate < 1 || current + 1 <= candidate <= |Created(s, o.account)| + 1)
         && Undisturbed(s, o, current)
       case Verifying(current, version, envelope) =>
         && o.kind.Rotate?
         && 1 <= version <= |Created(s, o.account)|
         && Created(s, o.account)[version - 1] == Creation(envelope, o.kind.key, o.kind.plain)
         && Undisturbed(s, o, current) && Newest(s, o, version)
       case Activating(current, version) =>
         && o.kind.Rotate?
         && 1 <= version <= |Created(s, o.account)|
         && Undisturbed(s, o, current) && Newest(s, o, version)
       case Deleting(current) => o.kind.Disable? && Undisturbed(s, o, current)
       case Reporting(Succeeded(version), _) => o.kind.Rotate? ==> version in Installed(s, o.account)
       case _ => true
  }

  ghost predicate OperationsOk(s: State) {
    && (forall op | op in s.ops :: OperationOk(s, s.ops[op]))
    && (forall op, op' | op in s.ops && op' in s.ops && op != op' :: s.ops[op].token != s.ops[op'].token)
  }

  /** A rotation reported as succeeded did install the version it reports. */
  ghost predicate AuditOk(s: State) {
    forall e | e in s.audit && e.rotation && e.outcome.Some? && e.outcome.value.Succeeded? ::
      e.outcome.value.version in Installed(s, e.account)
  }

  ghost predicate Inv(s: State) {
    && (forall a :: AccountOk(s, a))
    && (forall k | k in s.kv :: ValidKey(k))
    && OperationsOk(s) && AuditOk(s)
  }

  lemma PointerParses(kv: Store, a: Account, v: nat)
    requires v < INT64_LIMIT && PointerIs(kv, a, v)
    ensures CurrentVersion(kv, a) == Some(v)
  {
    if v != 0 { ParseInt64Format(v); }
  }

  /** The pointer read back is the last version installed, or 0 when there is none. */
  lemma PointerReads(s: State, a: Account) returns (v: nat)
    requires Inv(s)
    ensures PointerIs(s.kv, a, v) && CurrentVersion(s.kv, a) == Some(v) && v <= |Created(s, a)| < INT64_LIMIT
    ensures v != 0 ==> var xs := Installed(s, a); xs != [] && v == xs[|xs| - 1]
  {
    assert AccountOk(s, a);
    var xs := Installed(s, a);
    v := if CurrentKey(a) in s.kv then xs[|xs| - 1] else 0;
    PointerParses(s.kv, a, v);
  }

  // Every step keeps the invariant

  /** What a step may do without disturbing an operation that is not the one stepping. */
  ghost predicate Harmless(s: State, t: State, o: Operation) {
    var a := o.account;
    && s.tokens <= t.tokens
    && Created(s, a) <= Created(t, a) && Installed(s, a) <= Installed(t, a)
    && (OwnsLock(t.kv, a, o.token) ==>
          && OwnsLock(s.kv, a, o.token) && Installed(s, a) == Installed(t, a)
          && SameEntry(s.kv, t.kv, CurrentKey(a)))
  }

  lemma HarmlessKeeps(s: State, t: State, o: Operation)
    requires OperationOk(s, o) && Harmless(s, t, o)
    ensures OperationOk(t, o)
  {
    assert forall v | v in Installed(s, o.account) :: v in Installed(t, o.account);
  }

  predicate SameEntry(kv: Store, kv': Store, k: Key) {
    (k in kv <==> k in kv') && (k in kv ==> kv[k] == kv'[k])
  }

  ghost predicate SameAccount(s: State, t: State, a: Account) {
    && Created(s, a) == Created(t, a) && Installed(s, a) == Installed(t, a)
    && (forall r :: SameEntry(s.kv, t.kv, Key(a, r)))
  }

  lemma SameAccountKeeps(s: State, t: State, a: Account)
    requires AccountOk(s, a) && SameAccount(s, t, a) && s.tokens <= t.tokens
    ensures AccountOk(t, a)
  {
    forall r ensures SameEntry(s.kv, t.kv, Key(a, r)) {}
    forall v: nat | VersionKey(a, v) in t.kv ensures 1 <= v <= |Created(t, a)| {
      assert SameEntry(s.kv, t.kv, Key(a, Version(v)));
    }
    forall i | 0 <= i < |Created(t, a)| ensures SlotAt(t.kv, a, i, Created(t, a)[i]) {
      assert SlotAt(s.kv, a, i, Created(s, a)[i]) && SameEntry(s.kv, t.kv, Key(a, Version(i + 1)));
    }
    assert SameEntry(s.kv, t.kv, CurrentKey(a)) && SameEntry(s.kv, t.kv, LockKey(a));
  }

  /** A step on the entries of one account keeps the invariant when it keeps it for that account and disturbs
      no operation. */
  lemma OneAccountChanges(s: State, t: State, a: Account)
    requires Inv(s) && t.ops == s.ops && t.audit == s.audit && t.tokens == s.tokens
    requires forall b | b != a :: SameAccount(s, t, b)
    requires AccountOk(t, a) && Installed(s, a) <= Installed(t, a)
    requires forall k | k in t.kv :: ValidKey(k)
    requires forall p | p in s.ops :: OperationOk(t, s.ops[p])
    ensures Inv(t)
  {
    forall b ensures AccountOk(t, b) {
      if b != a { SameAccountKeeps(s, t, b); }
    }
    forall e | e in s.audit && e.rotation && e.outcome.Some? && e.outcome.value.Succeeded?
      ensures e.outcome.value.version in Installed(t, e.account)
    {
      if e.account != a { assert SameAccount(s, t, e.account); }
    }
  }

  /** A step that only changes the phase of one operation. */
  lemma GotoKeeps(s: State, op: nat, phase: Phase)
    requires Inv(s) && op in s.ops && OperationOk(s, s.ops[op].(phase := phase))
    ensures Inv(Goto(s, op, phase))
  {
    var t := Goto(s, op, phase);
    forall a ensures AccountOk(t, a) { SameAccountKeeps(s, t, a); }
    forall p | p in t.ops ensures OperationOk(t, t.ops[p]) { HarmlessKeeps(s, t, t.ops[p]); }
  }

  lemma BeginKeeps(s: State, act: Action)
    requires Inv(s) && act.Begin? && Enabled(s, act)
    ensures Inv(StepPlain(s, act))
  {
    var t := StepPlain(s, act);
    forall a ensures AccountOk(t, a) { SameAccountKeeps(s, t, a); }
    forall op | op in s.ops ensures OperationOk(t, s.ops[op]) { HarmlessKeeps(s, t, s.ops[op]); }
  }

  lemma SetLockKeeps(s: State, op: nat)
    requires Inv(s) && op in s.ops && s.ops[op].phase.Locking? && LockKey(s.ops[op].account) !in s.kv
    ensures Inv(SetLock(s, s.ops[op].account, s.ops[op].token))
  {
    var o := s.ops[op];
    var t := SetLock(s, o.account, o.token);
    assert AccountOk(s, o.account);
    forall p | p in s.ops ensures OperationOk(t, s.ops[p]) {
      if p != op { LockedOut(s, op, p); }
    }
    OneAccountChanges(s, t, o.account);
  }

  /** Taking a free lock takes nothing from another operation. */
  lemma LockedOut(s: State, op: nat, p: nat)
    requires OperationsOk(s) && op in s.ops && p in s.ops && p != op
    ensures OperationOk(SetLock(s, s.ops[op].account, s.ops[op].token), s.ops[p])
  {
    HarmlessKeeps(s, SetLock(s, s.ops[op].account, s.ops[op].token), s.ops[p]);
  }

  lemma DropLockKeeps(s: State, a: Account)
    requires Inv(s)
    ensures Inv(DropLock(s, a))
  {
    var t := DropLock(s, a);
    LockDropped(s, a);
    forall p | p in s.ops ensures OperationOk(t, s.ops[p]) {
      HarmlessKeeps(s, t, s.ops[p]);
    }
    OneAccountChanges(s, t, a);
  }

  lemma LockDropped(s: State, a: Account)
    requires AccountOk(s, a)
    ensures AccountOk(DropLock(s, a), a)
    ensures forall p | p in s.ops :: Harmless(s, DropLock(s, a), s.ops[p])
  {
  }

  lemma SlotsExtend(kv: Store, a: Account, created: seq<Creation>, c: Creation)
    requires SlotsOk(kv, a, created) && ValidAccount(a) && |created| + 1 < INT64_LIMIT
    ensures SlotsOk(kv[VersionKey(a, |created| + 1) := Document(c.envelope)], a, created + [c])
  {
    var more := created + [c];
    var kv' := kv[VersionKey(a, |created| + 1) := Document(c.envelope)];
    forall i | 0 <= i < |more| ensures SlotAt(kv', a, i, more[i]) {
      if i < |created| { assert SlotAt(kv, a, i, created[i]); }
    }
  }

  lemma WriteSlotKeeps(s: State, a: Account, version: nat, c: Creation)
    requires Inv(s) && ValidAccount(a) && version == |Created(s, a)| + 1 < INT64_LIMIT
    ensures Inv(WriteSlot(s, a, version, c))
  {
    var t := WriteSlot(s, a, version, c);
    SlotWritten(s, a, version, c);
    forall p | p in s.ops ensures OperationOk(t, s.ops[p]) {
      HarmlessKeeps(s, t, s.ops[p]);
    }
    OneAccountChanges(s, t, a);
  }

  /** The account itself gains a slot, and nothing any operation relies on is disturbed. */
  lemma SlotWritten(s: State, a: Account, version: nat, c: Creation)
    requires AccountOk(s, a) && ValidAccount(a) && version == |Created(s, a)| + 1 < INT64_LIMIT
    ensures AccountOk(WriteSlot(s, a, version, c), a)
    ensures forall p | p in s.ops :: Harmless(s, WriteSlot(s, a, version, c), s.ops[p])
  {
    var t := WriteSlot(s, a, version, c);
    assert Created(t, a) == Created(s, a) + [c];
    SlotsExtend(s.kv, a, Created(s, a), c);
  }

  /** An operation that owns its lock and whose own phase promises nothing about the pointer. */
  predicate FreeOwner(s: State, op: nat) {
    && op in s.ops && OwnsLock(s.kv, s.ops[op].account, s.ops[op].token)
    && s.ops[op].phase.Crashed?
  }

  lemma MovePointerKeeps(s: State, op: nat, version: nat)
    requires Inv(s) && FreeOwner(s, op)
    requires 1 <= version <= |Created(s, s.ops[op].account)| && Newest(s, s.ops[op], version)
    ensures Inv(MovePointer(s, s.ops[op].account, version))
  {
    var a := s.ops[op].account;
    var t := MovePointer(s, a, version);
    assert AccountOk(s, a);
    PointerMoved(s, a, version);
    forall p | p in s.ops ensures OperationOk(t, s.ops[p]) {
      if p != op {
        MoveIsHarmless(s, op, version, p);
        HarmlessKeeps(s, t, s.ops[p]);
      }
    }
    OneAccountChanges(s, t, a);
  }

  lemma PointerMoved(s: State, a: Account, version: nat)
    requires AccountOk(s, a) && 1 <= version <= |Created(s, a)|
    requires forall v | v in Installed(s, a) :: v < version
    ensures AccountOk(MovePointer(s, a, version), a)
  {
    assert Installed(MovePointer(s, a, version), a) == Installed(s, a) + [version];
    assert forall i | 0 <= i < |Installed(s, a)| :: Installed(s, a)[i] in Installed(s, a);
  }

  /** Nobody else owns the lock, so nobody else relies on where the pointer was. */
  lemma MoveIsHarmless(s: State, op: nat, version: nat, p: nat)
    requires OperationsOk(s) && FreeOwner(s, op) && p in s.ops && p != op
    ensures Harmless(s, MovePointer(s, s.ops[op].account, version), s.ops[p])
  {
    assert s.ops[p].token != s.ops[op].token;
  }

  lemma RemovePointerKeeps(s: State, op: nat)
    requires Inv(s) && FreeOwner(s, op)
    ensures Inv(RemovePointer(s, s.ops[op].account))
  {
    var a := s.ops[op].account;
    var t := RemovePointer(s, a);
    assert AccountOk(s, a);
    forall p | p in s.ops ensures OperationOk(t, s.ops[p]) {
      if p != op { HarmlessKeeps(s, t, s.ops[p]); }
    }
    OneAccountChanges(s, t, a);
  }

  lemma AcquireKeeps(s: State, op: nat, reply: Reply)
    requires Inv(s) && Enabled(s, Acquire(op, reply))
    ensures Inv(StepAcquire(s, op, reply))
  {
    var o := s.ops[op];
    var s' := s;
    if LockKey(o.account) !in s.kv && !reply.Refused? {
      SetLockKeeps(s, op);
      s' := SetLock(s, o.account, o.token);
    }
    GotoKeeps(s', op, StepAcquire(s, op, reply).ops[op].phase);
  }

  lemma ReadKeeps(s: State, op: nat, reply: Reply)
    requires Inv(s) && Enabled(s, Read(op, reply))
    ensures Inv(StepRead(s, op, CurrentVersion(s.kv, s.ops[op].account), reply))
  {
    var v := PointerReads(s, s.ops[op].account);
    GotoKeeps(s, op, StepRead(s, op, Some(v), reply).ops[op].phase);
  }

  /** The slot a rotation finds free is the one after the last. */
  lemma FreeSlotIsNext(s: State, op: nat, nonce: nat, reply: Reply)
    requires Inv(s) && Enabled(s, Try(op, nonce, reply)) && s.ops[op].phase.candidate >= 1
    ensures var o := s.ops[op]; var n := |Created(s, o.account)|;
            if VersionKey(o.account, o.phase.candidate) in s.kv then o.phase.candidate <= n
            else o.phase.candidate == n + 1 < INT64_LIMIT
  {
    var o := s.ops[op];
    assert OperationOk(s, o) && AccountOk(s, o.account);
    var c := o.phase.candidate;
    if 1 <= c <= |Created(s, o.account)| {
      assert SlotAt(s.kv, o.account, c - 1, Created(s, o.account)[c - 1]);
    }
  }

  /** Nothing installed lies above the slots that exist. */
  lemma InstalledBelow(s: State, a: Account, version: nat)
    requires InstalledOk(Installed(s, a), |Created(s, a)|) && |Created(s, a)| < version
    ensures forall v | v in Installed(s, a) :: v < version
  {
  }

  lemma NewSlotKeeps(s: State, op: nat, c: Creation)
    requires Inv(s) && op in s.ops && s.ops[op].kind.Rotate? && s.ops[op].phase.Allocating?
    requires s.ops[op].phase.candidate == |Created(s, s.ops[op].account)| + 1 < INT64_LIMIT
    requires c.key == s.ops[op].kind.key && c.plain == s.ops[op].kind.plain
    ensures var o := s.ops[op];
            var t := WriteSlot(s, o.account, o.phase.candidate, c);
            && Inv(Goto(t, op, Verifying(o.phase.current, o.phase.candidate, c.envelope)))
            && Inv(FailWith(t, op, "VERSION_WRITE_FAILED", true))
  {
    var o := s.ops[op];
    var a, candidate := o.account, o.phase.candidate;
    assert OperationOk(s, o);
    WriteSlotKeeps(s, a, candidate, c);
    var t := WriteSlot(s, a, candidate, c);
    GotoKeeps(t, op, Reporting(Failed("VERSION_WRITE_FAILED"), true));
    var next := o.(phase := Verifying(o.phase.current, candidate, c.envelope));
    assert OperationOk(t, next) by {
      assert Created(t, a) == Created(s, a) + [c] && Installed(t, a) == Installed(s, a);
      assert InstalledOk(Installed(s, a), |Created(s, a)|) by { assert AccountOk(s, a); }
      InstalledBelow(s, a, candidate);
      assert OperationOk(t, o);
      assert Undisturbed(t, next, o.phase.current);
    }
    GotoKeeps(t, op, next.phase);
  }

  lemma TryKeeps(s: State, op: nat, nonce: nat, sealed: Option<Envelope>, reply: Reply)
    requires Inv(s) && Enabled(s, Try(op, nonce, reply)) && (sealed.Some? ==> s.ops[op].phase.candidate >= 1)
    ensures Inv(StepTry(s, op, sealed, reply))
  {
    var o := s.ops[op];
    var a, candidate, current := o.account, o.phase.candidate, o.phase.current;
    assert OperationOk(s, o) && AccountOk(s, a);
    if sealed.None? {
      GotoKeeps(s, op, Reporting(Failed("ENCRYPT_FAILED"), true));
      return;
    }
    FreeSlotIsNext(s, op, nonce, reply);
    if VersionKey(a, candidate) in s.kv || reply.Refused? {
      GotoKeeps(s, op, StepTry(s, op, sealed, reply).ops[op].phase);
    } else {
      NewSlotKeeps(s, op, Creation(sealed.value, o.kind.key, o.kind.plain));
    }
  }

  lemma VerifyKeeps(s: State, op: nat, reply: Reply)
    requires Inv(s) && Enabled(s, Verify(op, reply))
    ensures Inv(StepVerify(s, op, reply))
  {
    assert OperationOk(s, s.ops[op]);
    GotoKeeps(s, op, StepVerify(s, op, reply).ops[op].phase);
  }

  predicate LockOwner(s: State, op: nat) {
    op in s.ops && OwnsLock(s.kv, s.ops[op].account, s.ops[op].token)
  }

  /** Going through another phase first leads to the same state. */
  lemma ViaCrashed(s: State, op: nat, a: Account, version: nat, final: Phase)
    requires op in s.ops
    ensures Goto(MovePointer(Goto(s, op, Crashed), a, version), op, final) == Goto(MovePointer(s, a, version), op, final)
    ensures Goto(RemovePointer(Goto(s, op, Crashed), a), op, final) == Goto(RemovePointer(s, a), op, final)
  {
    var o := s.ops[op];
    assert o.(phase := Crashed).(phase := final) == o.(phase := final);
    assert s.ops[op := o.(phase := Crashed)][op := o.(phase := final)] == s.ops[op := o.(phase := final)];
  }

  /** An operation whose report is due and true of the history. */
  predicate Reportable(s: State, o: Operation, final: Phase) {
    && final.Reporting?
    && (o.kind.Rotate? && final.outcome.Succeeded? ==> final.outcome.version in Installed(s, o.account))
  }

  lemma MoveThenReport(s: State, op: nat, final: Phase)
    requires Inv(s) && LockOwner(s, op) && s.ops[op].phase.Activating?
    requires final.Reporting? && (final.outcome.Succeeded? ==> final.outcome.version == s.ops[op].phase.version)
    ensures Inv(Goto(MovePointer(s, s.ops[op].account, s.ops[op].phase.version), op, final))
  {
    var o := s.ops[op];
    var a, version := o.account, o.phase.version;
    assert OperationOk(s, o) && Newest(s, o, version);
    GotoKeeps(s, op, Crashed);
    var free := Goto(s, op, Crashed);
    assert Newest(free, free.ops[op], version);
    MovePointerKeeps(free, op, version);
    var t := MovePointer(free, a, version);
    assert Reportable(t, o, final) by { assert Installed(t, a) == Installed(s, a) + [version]; }
    GotoKeeps(t, op, final);
    ViaCrashed(s, op, a, version, final);
  }

  lemma ActivateKeeps(s: State, op: nat, reply: Reply)
    requires Inv(s) && Enabled(s, Activate(op, reply))
    ensures Inv(StepActivate(s, op, reply))
  {
    var final := StepActivate(s, op, reply).ops[op].phase;
    if LockOwner(s, op) && !reply.Refused? {
      MoveThenReport(s, op, final);
    } else {
      assert OperationOk(s, s.ops[op]);
      GotoKeeps(s, op, final);
    }
  }

  lemma RemoveThenReport(s: State, op: nat, final: Phase)
    requires Inv(s) && LockOwner(s, op) && s.ops[op].phase.Deleting? && final.Reporting?
    ensures Inv(Goto(RemovePointer(s, s.ops[op].account), op, final))
  {
    var o := s.ops[op];
    assert OperationOk(s, o) && o.kind.Disable?;
    GotoKeeps(s, op, Crashed);
    var free := Goto(s, op, Crashed);
    RemovePointerKeeps(free, op);
    GotoKeeps(RemovePointer(free, o.account), op, final);
    ViaCrashed(s, op, o.account, 0, final);
  }

  lemma DeleteKeeps(s: State, op: nat, reply: Reply)
    requires Inv(s) && Enabled(s, Delete(op, reply))
    ensures Inv(StepDelete(s, op, reply))
  {
    var final := StepDelete(s, op, reply).ops[op].phase;
    if LockOwner(s, op) && !reply.Refused? {
      RemoveThenReport(s, op, final);
    } else {
      assert OperationOk(s, s.ops[op]);
      GotoKeeps(s, op, final);
    }
  }

  lemma AuditKeeps(s: State, e: AuditEvent)
    requires Inv(s)
    requires e.rotation && e.outcome.Some? && e.outcome.value.Succeeded? ==> e.outcome.value.version in Installed(s, e.account)
    ensures Inv(Audit(s, e))
  {
    var t := Audit(s, e);
    forall a ensures AccountOk(t, a) { SameAccountKeeps(s, t, a); }
    forall p | p in t.ops ensures OperationOk(t, t.ops[p]) { HarmlessKeeps(s, t, t.ops[p]); }
  }

  lemma ReportKeeps(s: State, op: nat, reply: Reply)
    requires Inv(s) && Enabled(s, Report(op, reply))
    ensures Inv(StepReport(s, op, reply))
  {
    var o, next := s.ops[op], StepReport(s, op, reply).ops[op].phase;
    assert OperationOk(s, o);
    GotoKeeps(s, op, next);
    if !reply.Refused? {
      assert Reportable(s, o, o.phase);
      RecordKeeps(s, op, next, RecordOf(op, o));
    }
  }

  lemma RecordKeeps(s: State, op: nat, next: Phase, e: AuditEvent)
    requires op in s.ops && Inv(Goto(s, op, next))
    requires e.rotation && e.outcome.Some? && e.outcome.value.Succeeded? ==> e.outcome.value.version in Installed(s, e.account)
    ensures Inv(Audit(Goto(s, op, next), e))
  {
    assert Installed(Goto(s, op, next), e.account) == Installed(s, e.account);
    AuditKeeps(Goto(s, op, next), e);
  }

  lemma ReleaseKeeps(s: State, op: nat, reply: Reply)
    requires Inv(s) && Enabled(s, Release(op, reply))
    ensures Inv(Step(s, Release(op, reply)))
  {
    var o := s.ops[op];
    assert OperationOk(s, o);
    var r := Goto(s, op, Done(o.phase.outcome));
    GotoKeeps(s, op, Done(o.phase.outcome));
    DropLockKeeps(r, o.account);
  }

  lemma StepKeeps(s: State, act: Action)
    requires Inv(s) && Enabled(s, act)
    ensures Inv(Step(s, act))
  {
    if act.Try? {
      var o := s.ops[act.op];
      TryKeeps(s, act.op, act.nonce, Encrypt(o.account, o.phase.candidate, o.kind.key, o.kind.plain, act.nonce), act.reply);
    } else {
      PlainKeeps(s, act);
    }
  }

  lemma PlainKeeps(s: State, act: Action)
    requires Inv(s) && Enabled(s, act) && !act.Try?
    ensures Inv(StepPlain(s, act))
  {
    match act
    case Begin(_, _, _, _) => BeginKeeps(s, act);
    case Acquire(op, reply) => AcquireKeeps(s, op, reply);
    case Read(op, reply) => ReadKeeps(s, op, reply);
    case Exhaust(op) =>
      assert OperationOk(s, s.ops[op]);
      GotoKeeps(s, op, Reporting(Failed("VERSION_EXHAUSTED"), true));
    case Verify(op, reply) => VerifyKeeps(s, op, reply);
    case Activate(op, reply) => ActivateKeeps(s, op, reply);
    case Delete(op, reply) => DeleteKeeps(s, op, reply);
    case Report(op, reply) => ReportKeeps(s, op, reply);
    case Release(op, reply) => ReleaseKeeps(s, op, reply);
    case Crash(op) =>
      assert OperationOk(s, s.ops[op]);
      GotoKeeps(s, op, Crashed);
    case Expire(a) => DropLockKeeps(s, a);
  }

  /** A creation is what Encrypt made for exactly this account and version. */
  predicate CreationOk(c: Creation, a: Account, version: nat) {
    Some(c.envelope) == Encrypt(a, version, c.key, c.plain, c.envelope.nonce)
  }

  ghost predicate SealedOk(s: State) {
    forall a, i | 0 <= i < |Created(s, a)| :: CreationOk(Created(s, a)[i], a, i + 1)
  }

  lemma NewSlotSeals(s: State, a: Account, c: Creation)
    requires SealedOk(s) && CreationOk(c, a, |Created(s, a)| + 1)
    ensures SealedOk(WriteSlot(s, a, |Created(s, a)| + 1, c))
  {
    var t := WriteSlot(s, a, |Created(s, a)| + 1, c);
    assert Created(t, a) == Created(s, a) + [c];
    assert forall b | b != a :: Created(t, b) == Created(s, b);
    forall b, i | 0 <= i < |Created(t, b)| ensures CreationOk(Created(t, b)[i], b, i + 1) {
      if b == a && i == |Created(s, a)| {
        assert Created(t, b)[i] == c;
      } else {
        assert Created(t, b)[i] == Created(s, b)[i];
      }
    }
  }

  lemma SameCreated(s: State, t: State)
    requires SealedOk(s) && t.created == s.created
    ensures SealedOk(t)
  {
    assert forall a :: Created(t, a) == Created(s, a);
  }

  lemma TrySeals(s: State, op: nat, nonce: nat, sealed: Option<Envelope>, reply: Reply)
    requires SealedOk(s) && op in s.ops && s.ops[op].phase.Allocating? && s.ops[op].kind.Rotate?
    requires var o := s.ops[op];
             o.phase.candidate >= 1 && VersionKey(o.account, o.phase.candidate) !in s.kv ==>
               o.phase.candidate == |Created(s, o.account)| + 1
    requires var o := s.ops[op]; sealed == Encrypt(o.account, o.phase.candidate, o.kind.key, o.kind.plain, nonce)
    ensures SealedOk(StepTry(s, op, sealed, reply))
  {
    var o := s.ops[op];
    var t := StepTry(s, op, sealed, reply);
    if sealed.Some? && VersionKey(o.account, o.phase.candidate) !in s.kv && !reply.Refused? {
      var c := Creation(sealed.value, o.kind.key, o.kind.plain);
      NewSlotSeals(s, o.account, c);
      SameCreated(WriteSlot(s, o.account, o.phase.candidate, c), t);
    } else {
      SameCreated(s, t);
    }
  }

  lemma OnlyTryCreates(s: State, act: Action)
    requires Enabled(s, act) && !act.Try?
    ensures StepPlain(s, act).created == s.created
  {
    match act
    case Acquire(op, reply) => assert StepAcquire(s, op, reply).created == s.created;
    case Read(op, reply) => ReadCreatesNothing(s, op, CurrentVersion(s.kv, s.ops[op].account), reply);
    case Verify(op, reply) => VerifyCreatesNothing(s, op, reply);
    case _ =>
  }

  lemma ReadCreatesNothing(s: State, op: nat, current: Option<nat>, reply: Reply)
    requires op in s.ops
    ensures StepRead(s, op, current, reply).created == s.created
  {
  }

  lemma VerifyCreatesNothing(s: State, op: nat, reply: Reply)
    requires op in s.ops && s.ops[op].phase.Verifying? && s.ops[op].kind.Rotate?
    ensures StepVerify(s, op, reply).created == s.created
  {
  }

  lemma StepSeals(s: State, act: Action)
    requires Inv(s) && SealedOk(s) && Enabled(s, act)
    ensures SealedOk(Step(s, act))
  {
    if act.Try? {
      if s.ops[act.op].phase.candidate >= 1 { FreeSlotIsNext(s, act.op, act.nonce, act.reply); }
      var o := s.ops[act.op];
      var sealed := Encrypt(o.account, o.phase.candidate, o.kind.key, o.kind.plain, act.nonce);
      TrySeals(s, act.op, act.nonce, sealed, act.reply);
    } else {
      OnlyTryCreates(s, act);
      SameCreated(s, Step(s, act));
    }
  }

  // Whole runs

  ghost predicate Next(s: State, act: Action, t: State) {
    Enabled(s, act) && t == Step(s, act)
  }

  ghost predicate Run(states: seq<State>, acts: seq<Action>) {
    && |states| == |acts| + 1 && states[0] == INIT
    && forall i | 0 <= i < |acts| :: Next(states[i], acts[i], states[i + 1])
  }

  lemma InitInv()
    ensures Inv(INIT) && SealedOk(INIT)
  {
    forall a ensures AccountOk(INIT, a) {}
  }

  /** The invariant holds in every state of every run. */
  lemma {:induction false} RunKeeps(states: seq<State>, acts: seq<Action>, i: nat)
    requires Run(states, acts) && i < |states|
    ensures Inv(states[i]) && SealedOk(states[i])
  {
    if i == 0 {
      InitInv();
    } else {
      var k := i - 1;
      RunKeeps(states, acts, k);
      assert Next(states[k], acts[k], states[k + 1]);
      StepKeeps(states[k], acts[k]);
      StepSeals(states[k], acts[k]);
    }
  }

  // Answers and audit records

  function AnswerOf(o: Operation): Option<Outcome> {
    match o.phase
    case Releasing(outcome) => Some(outcome)
    case Done(outcome) => Some(outcome)
    case _ => None
  }

  /** The answer an operation is about to give, or gave, is on record, unless it says that it is not. */
  predicate Recorded(s: State, op: nat)
    requires op in s.ops
  {
    var o := s.ops[op];
    var answer := AnswerOf(o);
    answer.Some? && !answer.value.Unrecorded? ==> AuditEvent(op, o.account, o.kind.Rotate?, answer) in s.audit
  }

  lemma StepRecords(s: State, act: Action, p: nat)
    requires Enabled(s, act) && (p in s.ops ==> Recorded(s, p))
    ensures p in Step(s, act).ops ==> Recorded(Step(s, act), p)
  {
    match act
    case Begin(_, _, _, _) =>
    case Expire(_) =>
    case Try(op, nonce, reply) =>
      var o := s.ops[op];
      TryRecords(s, op, Encrypt(o.account, o.phase.candidate, o.kind.key, o.kind.plain, nonce), reply, p);
    case Exhaust(op) => GotoRecords(s, op, Reporting(Failed("VERSION_EXHAUSTED"), true), p);
    case Acquire(op, reply) => AcquireRecords(s, op, reply, p);
    case Read(op, reply) => ReadRecords(s, op, CurrentVersion(s.kv, s.ops[op].account), reply, p);
    case Verify(op, reply) => VerifyRecords(s, op, reply, p);
    case Activate(op, reply) => ActivateRecords(s, op, reply, p);
    case Delete(op, reply) => DeleteRecords(s, op, reply, p);
    case Report(op, reply) => ReportRecords(s, op, reply, p);
    case Release(op, _) => GotoRecords(s, op, Done(s.ops[op].phase.outcome), p);
    case Crash(op) => GotoRecords(s, op, Crashed, p);
  }

  /** A step of one operation that leaves the answer open, or leaves it as it was. */
  lemma GotoRecords(s: State, op: nat, phase: Phase, p: nat)
    requires op in s.ops && (p in s.ops ==> Recorded(s, p))
    requires AnswerOf(s.ops[op].(phase := phase)) in {None, AnswerOf(s.ops[op])}
    ensures p in Goto(s, op, phase).ops ==> Recorded(Goto(s, op, phase), p)
  {
  }

  lemma AcquireRecords(s: State, op: nat, reply: Reply, p: nat)
    requires op in s.ops && (p in s.ops ==> Recorded(s, p))
    ensures p in StepAcquire(s, op, reply).ops ==> Recorded(StepAcquire(s, op, reply), p)
  {
  }

  lemma ReadRecords(s: State, op: nat, current: Option<nat>, reply: Reply, p: nat)
    requires op in s.ops && (p in s.ops ==> Recorded(s, p))
    ensures p in StepRead(s, op, current, reply).ops ==> Recorded(StepRead(s, op, current, reply), p)
  {
  }

  lemma VerifyRecords(s: State, op: nat, reply: Reply, p: nat)
    requires op in s.ops && s.ops[op].phase.Verifying? && s.ops[op].kind.Rotate? && (p in s.ops ==> Recorded(s, p))
    ensures p in StepVerify(s, op, reply).ops ==> Recorded(StepVerify(s, op, reply), p)
  {
  }

  lemma ActivateRecords(s: State, op: nat, reply: Reply, p: nat)
    requires op in s.ops && s.ops[op].phase.Activating? && (p in s.ops ==> Recorded(s, p))
    ensures p in StepActivate(s, op, reply).ops ==> Recorded(StepActivate(s, op, reply), p)
  {
  }

  lemma DeleteRecords(s: State, op: nat, reply: Reply, p: nat)
    requires op in s.ops && s.ops[op].phase.Deleting? && (p in s.ops ==> Recorded(s, p))
    ensures p in StepDelete(s, op, reply).ops ==> Recorded(StepDelete(s, op, reply), p)
  {
  }

  lemma ReportRecords(s: State, op: nat, reply: Reply, p: nat)
    requires Enabled(s, Report(op, reply)) && (p in s.ops ==> Recorded(s, p))
    ensures p in StepReport(s, op, reply).ops ==> Recorded(StepReport(s, op, reply), p)
  {
    var t := StepReport(s, op, reply);
    assert forall e | e in s.audit :: e in t.audit;
    assert !reply.Refused? ==> t.audit[|s.audit|] == RecordOf(op, s.ops[op]);
  }

  lemma TryRecords(s: State, op: nat, sealed: Option<Envelope>, reply: Reply, p: nat)
    requires op in s.ops && s.ops[op].phase.Allocating? && s.ops[op].kind.Rotate?
    requires sealed.Some? ==> s.ops[op].phase.candidate >= 1
    requires p in s.ops ==> Recorded(s, p)
    ensures p in StepTry(s, op, sealed, reply).ops ==> Recorded(StepTry(s, op, sealed, reply), p)
  {
  }

  lemma {:induction false} RunRecords(states: seq<State>, acts: seq<Action>, i: nat, p: nat)
    requires Run(states, acts) && i < |states| && p in states[i].ops
    ensures Recorded(states[i], p)
  {
    if i > 0 {
      var k := i - 1;
      assert Next(states[k], acts[k], states[k + 1]);
      if p in states[k].ops {
        RunRecords(states, acts, k, p);
      }
      StepRecords(states[k], acts[k], p);
    }
  }

  /** A rotation that answers success did install its version and left its record, in every interleaving and with
      audit writes failing at will. */
  lemma SuccessIsRecorded(states: seq<State>, acts: seq<Action>, i: nat, op: nat, v: nat)
    requires Run(states, acts) && i < |states| && op in states[i].ops
    requires states[i].ops[op].kind.Rotate? && states[i].ops[op].phase == Done(Succeeded(v))
    ensures v in Installed(states[i], states[i].ops[op].account)
    ensures AuditEvent(op, states[i].ops[op].account, true, Some(Succeeded(v))) in states[i].audit
  {
    RunRecords(states, acts, i, op);
    RunKeeps(states, acts, i);
  }

  /** Step `act` makes version `v` current for `a`. */
  predicate Installs(s: State, act: Action, a: Account, v: nat) {
    && Enabled(s, act) && act.Activate? && !act.reply.Refused?
    && s.ops[act.op].account == a && s.ops[act.op].phase.version == v
    && OwnsLock(s.kv, a, s.ops[act.op].token)
  }

  ghost predicate Grows(s: State, t: State, a: Account) {
    Created(s, a) <= Created(t, a) && Installed(s, a) <= Installed(t, a)
  }

  lemma TryGrows(s: State, op: nat, sealed: Option<Envelope>, reply: Reply, a: Account)
    requires op in s.ops && s.ops[op].phase.Allocating? && s.ops[op].kind.Rotate?
    requires sealed.Some? ==> s.ops[op].phase.candidate >= 1
    ensures Grows(s, StepTry(s, op, sealed, reply), a)
  {
  }

  lemma StepGrows(s: State, act: Action, t: State, a: Account)
    requires Next(s, act, t)
    ensures Grows(s, t, a)
  {
    if act.Try? {
      var o := s.ops[act.op];
      TryGrows(s, act.op, Encrypt(o.account, o.phase.candidate, o.kind.key, o.kind.plain, act.nonce), act.reply, a);
    } else {
      PlainGrows(s, act, a);
    }
  }

  lemma PlainGrows(s: State, act: Action, a: Account)
    requires Enabled(s, act) && !act.Try?
    ensures Grows(s, StepPlain(s, act), a)
  {
    match act
    case Read(op, reply) => ReadGrows(s, op, CurrentVersion(s.kv, s.ops[op].account), reply, a);
    case Verify(op, reply) => VerifyGrows(s, op, reply, a);
    case Activate(op, reply) => ActivateGrows(s, op, reply, a);
    case _ =>
  }

  lemma ReadGrows(s: State, op: nat, current: Option<nat>, reply: Reply, a: Account)
    requires op in s.ops
    ensures Grows(s, StepRead(s, op, current, reply), a)
  {
  }

  lemma VerifyGrows(s: State, op: nat, reply: Reply, a: Account)
    requires op in s.ops && s.ops[op].phase.Verifying? && s.ops[op].kind.Rotate?
    ensures Grows(s, StepVerify(s, op, reply), a)
  {
  }

  lemma ActivateGrows(s: State, op: nat, reply: Reply, a: Account)
    requires op in s.ops && s.ops[op].phase.Activating?
    ensures Grows(s, StepActivate(s, op, reply), a)
  {
  }

  /** Installing is recorded in the history. */
  lemma InstallingIsRecorded(s: State, act: Action, t: State, a: Account, v: nat)
    requires Next(s, act, t) && Installs(s, act, a, v)
    ensures Installed(t, a) == Installed(s, a) + [v]
  {
  }

  /** A pointer only ever gets a value by installing it. */
  lemma OnlyInstallingWrites(s: State, act: Action, t: State, a: Account)
    requires Next(s, act, t) && CurrentKey(a) in t.kv && !SameEntry(s.kv, t.kv, CurrentKey(a))
    ensures Enabled(s, act) && act.Activate? && Installs(s, act, a, s.ops[act.op].phase.version)
  {
    if !act.Activate? {
      OthersWriteNoPointer(s, act, a);
    }
  }

  /** A step leaves the entry under a key as it was, or without a value. */
  predicate NotWritten(s: State, t: State, k: Key) {
    k in t.kv ==> SameEntry(s.kv, t.kv, k)
  }

  lemma OthersWriteNoPointer(s: State, act: Action, a: Account)
    requires Enabled(s, act) && !act.Activate?
    ensures NotWritten(s, Step(s, act), CurrentKey(a))
  {
    match act
    case Try(op, nonce, reply) =>
      var o := s.ops[op];
      TryWritesNoPointer(s, op, Encrypt(o.account, o.phase.candidate, o.kind.key, o.kind.plain, nonce), reply, a);
    case Acquire(op, reply) => AcquireWritesNoPointer(s, op, reply, a);
    case Read(op, reply) => ReadWritesNoPointer(s, op, CurrentVersion(s.kv, s.ops[op].account), reply, a);
    case Delete(op, reply) => DeleteWritesNoPointer(s, op, reply, a);
    case _ =>
  }

  lemma TryWritesNoPointer(s: State, op: nat, sealed: Option<Envelope>, reply: Reply, a: Account)
    requires op in s.ops && s.ops[op].phase.Allocating? && s.ops[op].kind.Rotate?
    requires sealed.Some? ==> s.ops[op].phase.candidate >= 1
    ensures NotWritten(s, StepTry(s, op, sealed, reply), CurrentKey(a))
  {
  }

  lemma AcquireWritesNoPointer(s: State, op: nat, reply: Reply, a: Account)
    requires op in s.ops
    ensures NotWritten(s, StepAcquire(s, op, reply), CurrentKey(a))
  {
  }

  lemma ReadWritesNoPointer(s: State, op: nat, current: Option<nat>, reply: Reply, a: Account)
    requires op in s.ops
    ensures NotWritten(s, StepRead(s, op, current, reply), CurrentKey(a))
  {
  }

  lemma DeleteWritesNoPointer(s: State, op: nat, reply: Reply, a: Account)
    requires op in s.ops && s.ops[op].phase.Deleting?
    ensures NotWritten(s, StepDelete(s, op, reply), CurrentKey(a))
  {
  }

  lemma {:induction false} HistoryGrows(states: seq<State>, acts: seq<Action>, a: Account, i: nat, j: nat)
    requires Run(states, acts) && i <= j < |states|
    ensures Grows(states[i], states[j], a)
  {
    if i < j {
      var k := j - 1;
      HistoryGrows(states, acts, a, i, k);
      StepGrows(states[k], acts[k], states[k + 1], a);
    }
  }

  /** In every interleaving, with locks expiring and processes crashing at will, the versions made current for
      an account strictly increase over the whole run, Disable in between or not. */
  lemma InstalledVersionsIncrease(states: seq<State>, acts: seq<Action>, a: Account, i: nat, j: nat, v: nat, w: nat)
    requires Run(states, acts) && i < j < |acts|
    requires Installs(states[i], acts[i], a, v) && Installs(states[j], acts[j], a, w)
    ensures v < w
  {
    InstallingIsRecorded(states[i], acts[i], states[i + 1], a, v);
    HistoryGrows(states, acts, a, i + 1, j);
    assert v in Installed(states[j], a) by {
      var xs := Installed(states[i], a) + [v];
      assert xs[|xs| - 1] == v && xs <= Installed(states[j], a);
    }
    RunKeeps(states, acts, j);
    var o := states[j].ops[acts[j].op];
    assert OperationOk(states[j], o);
    assert Newest(states[j], o, w);
  }

  /** A reader never sees the pointer of an account go back. */
  lemma PointerNeverGoesBack(states: seq<State>, acts: seq<Action>, a: Account, i: nat, j: nat)
    requires Run(states, acts) && i <= j < |states|
    requires CurrentKey(a) in states[i].kv && CurrentKey(a) in states[j].kv
    ensures CurrentVersion(states[i].kv, a).Some? && CurrentVersion(states[j].kv, a).Some?
    ensures CurrentVersion(states[i].kv, a).value <= CurrentVersion(states[j].kv, a).value
  {
    RunKeeps(states, acts, i);
    RunKeeps(states, acts, j);
    HistoryGrows(states, acts, a, i, j);
    PointerLater(states[i], states[j], a);
  }

  lemma PointerLater(s: State, t: State, a: Account)
    requires Inv(s) && Inv(t) && Installed(s, a) <= Installed(t, a)
    requires CurrentKey(a) in s.kv && CurrentKey(a) in t.kv
    ensures CurrentVersion(s.kv, a).Some? && CurrentVersion(t.kv, a).Some?
    ensures CurrentVersion(s.kv, a).value <= CurrentVersion(t.kv, a).value
  {
    PresentPointerReads(s, a);
    PresentPointerReads(t, a);
    InstalledInOrder(t, a);
    LaterIsLarger(Installed(s, a), Installed(t, a), |Created(t, a)|);
  }

  /** A pointer that is there reads as the last version installed. */
  lemma PresentPointerReads(s: State, a: Account)
    requires Inv(s) && CurrentKey(a) in s.kv
    ensures Installed(s, a) != [] && CurrentVersion(s.kv, a) == Some(Installed(s, a)[|Installed(s, a)| - 1])
  {
    var v := PointerReads(s, a);
  }

  lemma InstalledInOrder(s: State, a: Account)
    requires Inv(s)
    ensures InstalledOk(Installed(s, a), |Created(s, a)|)
  {
    assert AccountOk(s, a);
  }

  lemma LaterIsLarger(xs: seq<nat>, ys: seq<nat>, slots: nat)
    requires xs != [] && xs <= ys && InstalledOk(ys, slots)
    ensures xs[|xs| - 1] <= ys[|ys| - 1]
  {
    assert xs[|xs| - 1] == ys[|xs| - 1];
  }

  /** Moving the pointer is a compare-and-swap: it replaces exactly what the rotation read under its lock, and
      removing it removes exactly what the disabling operation reports. */
  lemma PointerWritesAreFenced(states: seq<State>, acts: seq<Action>, i: nat)
    requires Run(states, acts) && i < |acts| && (acts[i].Activate? || acts[i].Delete?)
    requires !acts[i].reply.Refused? && LockOwner(states[i], acts[i].op)
    ensures Enabled(states[i], acts[i])
    ensures var o := states[i].ops[acts[i].op];
            && CurrentVersion(states[i].kv, o.account) == Some(o.phase.current)
            && (acts[i].Activate? ==>
                  o.phase.current < o.phase.version
                  && CurrentVersion(states[i + 1].kv, o.account) == Some(o.phase.version))
            && (acts[i].Delete? ==> CurrentVersion(states[i + 1].kv, o.account) == Some(0))
  {
    var s := states[i];
    RunKeeps(states, acts, i);
    RunKeeps(states, acts, i + 1);
    var o := s.ops[acts[i].op];
    assert OperationOk(s, o) && AccountOk(s, o.account);
    var v := PointerReads(s, o.account);
    assert PointerIs(s.kv, o.account, o.phase.current);
    if v != 0 && o.phase.current != 0 { FormatNatInjective(v, o.phase.current); }
    if acts[i].Activate? {
      assert Newest(s, o, o.phase.version);
      if v != 0 { assert v in Installed(s, o.account); }
      PointerParses(states[i + 1].kv, o.account, o.phase.version);
    }
  }

  /** In every state the stored versions of an account are exactly 1..n, and no slot is ever rewritten or
      removed. */
  lemma SlotsAreContiguousAndImmutable(states: seq<State>, acts: seq<Action>, a: Account, i: nat, j: nat) returns (n: nat)
    requires Run(states, acts) && i <= j < |states|
    ensures forall v: nat {:trigger VersionKey(a, v)} :: VersionKey(a, v) in states[i].kv <==> 1 <= v <= n
    ensures forall v: nat {:trigger VersionKey(a, v)} | 1 <= v <= n ::
              VersionKey(a, v) in states[j].kv && states[j].kv[VersionKey(a, v)] == states[i].kv[VersionKey(a, v)]
  {
    RunKeeps(states, acts, i);
    RunKeeps(states, acts, j);
    HistoryGrows(states, acts, a, i, j);
    var s, t := states[i], states[j];
    assert AccountOk(s, a) && AccountOk(t, a);
    n := |Created(s, a)|;
    forall v: nat | 1 <= v <= n
      ensures VersionKey(a, v) in s.kv && VersionKey(a, v) in t.kv && t.kv[VersionKey(a, v)] == s.kv[VersionKey(a, v)]
    {
      assert SlotAt(s.kv, a, v - 1, Created(s, a)[v - 1]) && SlotAt(t.kv, a, v - 1, Created(t, a)[v - 1]);
    }
  }

  /** Status reads the pointer and later, without any lock, the slot it names: however much happens in between,
      the envelope is there, validates, and opens to what its creator sealed. */
  lemma StatusNeverMissesItsEnvelope(states: seq<State>, acts: seq<Action>, a: Account, i: nat, j: nat)
    requires Run(states, acts) && i <= j < |states| && CurrentKey(a) in states[i].kv
    ensures CurrentVersion(states[i].kv, a).Some? && CurrentVersion(states[i].kv, a).value >= 1
    ensures var v := CurrentVersion(states[i].kv, a).value;
            && VersionKey(a, v) in states[j].kv && states[j].kv[VersionKey(a, v)].Document?
            && v <= |Created(states[j], a)|
            && var e, c := states[j].kv[VersionKey(a, v)].envelope, Created(states[j], a)[v - 1];
               Validates(e, a, v, e.keyId) && e.keyId == c.key.id && Decrypt(e, c.key) == Some(c.plain)
  {
    RunKeeps(states, acts, i);
    RunKeeps(states, acts, j);
    var v := PointerReads(states[i], a);
    HistoryGrows(states, acts, a, i, j);
    var t := states[j];
    var c := Created(t, a)[v - 1];
    assert AccountOk(t, a) && SlotAt(t.kv, a, v - 1, c) && CreationOk(c, a, v);
    DecryptUndoesEncrypt(a, v, c.key, c.plain, c.envelope.nonce);
  }
}
