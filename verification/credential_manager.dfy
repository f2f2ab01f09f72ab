/**
 The shared store as one flat string-keyed map, and the manager's operations run on it without interference.
 Each store command the manager issues is one step of the protocol, so what the manager does alone is one of
 the protocol's runs; other operations may be in flight, at any phase, when it starts.
 */
module CredentialManager {
  import opened Int64
  import opened Wrappers
  import opened Text
  import opened CredentialNames
  import opened CredentialEnvelope
  import opened CredentialProtocol

  /** The flat map holds exactly the protocol's entries under their key names. */
  ghost predicate Represents(flat: map<string, Value>, kv: Store) {
    forall k | ValidKey(k) :: (KeyName(k) in flat <==> k in kv) && (k in kv ==> flat[KeyName(k)] == kv[k])
  }

  /** Because names never collide, writing or removing one name touches one entry. */
  lemma FlatWrite(flat: map<string, Value>, kv: Store, k: Key, v: Value)
    requires Represents(flat, kv) && ValidKey(k)
    ensures Represents(flat[KeyName(k) := v], kv[k := v])
    ensures Represents(flat - {KeyName(k)}, kv - {k})
  {
    forall l | ValidKey(l) && KeyName(l) == KeyName(k) ensures l == k {
      KeyNameInjective(l, k);
    }
  }

  function StoredEnvelope(kv: Store, a: Account, v: nat): Option<Envelope> {
    if VersionKey(a, v) in kv && kv[VersionKey(a, v)].Document? then Some(kv[VersionKey(a, v)].envelope) else None
  }

  /** The pointer as a number, 0 when absent or unreadable. */
  function PointerOf(kv: Store, a: Account): nat {
    match CurrentVersion(kv, a)
    case Some(v) => v
    case None => 0
  }

  /** `after` differs from `before` only in holding version `v`, made current. */
  ghost predicate Rotated(before: Store, after: Store, a: Account, v: nat, e: Option<Envelope>) {
    && CurrentVersion(after, a) == Some(v) && e.Some? && StoredEnvelope(after, a, v) == e
    && forall k | k != CurrentKey(a) && k != VersionKey(a, v) :: SameEntry(before, after, k)
  }

  lemma RotationEffect(before: Store, a: Account, token: string, v: nat, e: Envelope)
    requires LockKey(a) !in before && 1 <= v < INT64_LIMIT
    ensures Rotated(before, before[LockKey(a) := Text(token)][VersionKey(a, v) := Document(e)]
                                  [CurrentKey(a) := Text(FormatNat(v))] - {LockKey(a)}, a, v, Some(e))
    ensures before[LockKey(a) := Text(token)] - {LockKey(a)} == before
  {
    PointerParses(before[LockKey(a) := Text(token)][VersionKey(a, v) := Document(e)]
                  [CurrentKey(a) := Text(FormatNat(v))] - {LockKey(a)}, a, v);
  }

  /** What the candidate loop does to a store in which the rotation owns the lock. */
  ghost predicate AllocateEffect(start: Store, end: Store, a: Account, key: KeyMaterial, plain: Credentials,
                                 c: nat, n: nat, nonces: nat -> nat, outcome: Outcome)
  {
    if n < c + 1000 < INT64_LIMIT then
      var e := Encrypt(a, n + 1, key, plain, nonces(n + 1));
      && outcome == Succeeded(n + 1) && e.Some?
      && end == start[VersionKey(a, n + 1) := Document(e.value)][CurrentKey(a) := Text(FormatNat(n + 1))] - {LockKey(a)}
    else
      && outcome == Failed(if c + 1 < INT64_LIMIT then "VERSION_EXHAUSTED" else "ENCRYPT_FAILED")
      && end == start - {LockKey(a)}
  }

  /** What Rotate does alone, with n slots and the pointer at c before. */
  ghost predicate RotateEffect(before: Store, after: Store, a: Account, key: KeyMaterial, plain: Credentials,
                               c: nat, n: nat, nonces: nat -> nat, outcome: Outcome)
  {
    if LockKey(a) in before then
      outcome == Failed("ROTATION_IN_PROGRESS") && after == before
    else if n < c + 1000 < INT64_LIMIT then
      outcome == Succeeded(n + 1) && Rotated(before, after, a, n + 1, Encrypt(a, n + 1, key, plain, nonces(n + 1)))
    else
      && outcome == Failed(if c + 1 < INT64_LIMIT then "VERSION_EXHAUSTED" else "ENCRYPT_FAILED")
      && after == before
  }

  lemma Explain(before: Store, end: Store, a: Account, token: string, key: KeyMaterial, plain: Credentials,
                c: nat, n: nat, nonces: nat -> nat, outcome: Outcome)
    requires LockKey(a) !in before
    requires AllocateEffect(before[LockKey(a) := Text(token)], end, a, key, plain, c, n, nonces, outcome)
    ensures RotateEffect(before, end, a, key, plain, c, n, nonces, outcome)
  {
    if n < c + 1000 < INT64_LIMIT {
      RotationEffect(before, a, token, n + 1, Encrypt(a, n + 1, key, plain, nonces(n + 1)).value);
    } else {
      assert before[LockKey(a) := Text(token)] - {LockKey(a)} == before;
    }
  }

  const NO_ENVELOPE := Envelope("", Account("", "", ""), 0, "", 0, Sealed(0, 0, "", Credentials("", "", "")))

  class RedisSecretStore {
    var kv: map<string, Value>

    constructor ()
      ensures kv == map[]
    {
      kv := map[];
    }

    method Get(key: string) returns (value: Option<Value>)
      ensures value == if key in kv then Some(kv[key]) else None
    {
      value := if key in kv then Some(kv[key]) else None;
    }

    /** SETNX. */
    method SetIfAbsent(key: string, value: Value) returns (created: bool)
      modifies this
      ensures created == (key !in old(kv))
      ensures kv == if created then old(kv)[key := value] else old(kv)
    {
      created := key !in kv;
      if created { kv := kv[key := value]; }
    }

    method SetIfLockOwner(lock: string, token: string, key: string, value: Value) returns (done: bool)
      modifies this
      ensures done == (lock in old(kv) && old(kv)[lock] == Text(token))
      ensures kv == if done then old(kv)[key := value] else old(kv)
    {
      done := lock in kv && kv[lock] == Text(token);
      if done { kv := kv[key := value]; }
    }

    method DeleteIfLockOwner(lock: string, token: string, key: string) returns (done: bool)
      modifies this
      ensures done == (lock in old(kv) && old(kv)[lock] == Text(token))
      ensures kv == if done then old(kv) - {key} else old(kv)
    {
      done := lock in kv && kv[lock] == Text(token);
      if done { kv := kv - {key}; }
    }

    method ReleaseLock(lock: string, token: string)
      modifies this
      ensures kv == if lock in old(kv) && old(kv)[lock] == Text(token) then old(kv) - {lock} else old(kv)
    {
      if lock in kv && kv[lock] == Text(token) { kv := kv - {lock}; }
    }
  }

  datatype Status =
    | NotConfigured
    | Configured(version: nat, keyId: string, decryptionVerified: bool)
    | StatusFailed(reason: string)

  class Manager {
    const store: RedisSecretStore
    /** The run of the protocol that led to the present contents of the store. */
    ghost var states: seq<State>
    ghost var acts: seq<Action>

    ghost predicate Valid()
      reads this, store
    {
      Run(states, acts) && Represents(store.kv, Now().kv)
    }

    ghost function Now(): State
      reads this
    {
      if states == [] then INIT else states[|states| - 1]
    }

    constructor ()
      ensures Valid() && fresh(store) && Now() == INIT
    {
      store := new RedisSecretStore();
      states, acts := [INIT], [];
    }

    /** Extend the run by one step. */
    ghost method Do(act: Action)
      requires Run(states, acts) && Enabled(Now(), act)
      modifies this
      ensures Run(states, acts) && Now() == Step(old(Now()), act)
      ensures states == old(states) + [Now()] && acts == old(acts) + [act]
    {
      var t := Step(Now(), act);
      forall i | 0 <= i < |acts + [act]| ensures Next((states + [t])[i], (acts + [act])[i], (states + [t])[i + 1]) {
        if i < |acts| { assert Next(states[i], acts[i], states[i + 1]); }
      }
      states, acts := states + [t], acts + [act];
    }

    lemma NowInv()
      requires Run(states, acts)
      ensures Inv(Now()) && SealedOk(Now())
    {
      RunKeeps(states, acts, |acts|);
    }

    /** Operation `op` is at this phase. */
    ghost predicate At(op: nat, kind: Kind, a: Account, token: string, phase: Phase)
      reads this
    {
      op in Now().ops && Now().ops[op] == Operation(kind, a, token, phase)
    }

    method Begin(ghost op: nat, ghost kind: Kind, a: Account, token: string)
      requires Valid() && Enabled(Now(), Action.Begin(op, kind, a, token))
      modifies this
      ensures Valid() && old(states) <= states && old(acts) <= acts
      ensures Now().kv == old(Now()).kv && At(op, kind, a, token, Locking)
    {
      Do(Action.Begin(op, kind, a, token));
    }

    method AcquireLock(ghost op: nat, ghost kind: Kind, a: Account, token: string) returns (acquired: bool)
      requires Valid() && ValidAccount(a) && At(op, kind, a, token, Locking)
      modifies this, store
      ensures Valid() && old(states) <= states && old(acts) <= acts
      ensures acquired == (LockKey(a) !in old(Now()).kv)
      ensures acquired ==> Now().kv == old(Now()).kv[LockKey(a) := Text(token)] && At(op, kind, a, token, Reading)
      ensures !acquired ==> Now().kv == old(Now()).kv && At(op, kind, a, token,
                Reporting(Failed(if kind.Rotate? then "ROTATION_IN_PROGRESS" else "LOCK_FAILED"), false))
    {
      FlatWrite(store.kv, Now().kv, LockKey(a), Text(token));
      acquired := store.SetIfAbsent(KeyName(LockKey(a)), Text(token));
      Do(Acquire(op, Answered));
    }

    /** Begin and take the lock, or report at once that it is held. */
    method Enter(ghost op: nat, ghost kind: Kind, a: Account, token: string) returns (acquired: bool)
      requires Valid() && ValidAccount(a) && Enabled(Now(), Action.Begin(op, kind, a, token))
      modifies this, store
      ensures Valid() && old(states) <= states && old(acts) <= acts
      ensures acquired == (LockKey(a) !in old(Now()).kv)
      ensures acquired ==> Now().kv == old(Now()).kv[LockKey(a) := Text(token)] && At(op, kind, a, token, Reading)
      ensures !acquired ==> Now().kv == old(Now()).kv
    {
      Begin(op, kind, a, token);
      acquired := AcquireLock(op, kind, a, token);
      if !acquired {
        Abandon(op, kind, a, token, Failed(if kind.Rotate? then "ROTATION_IN_PROGRESS" else "LOCK_FAILED"));
      }
    }

    method ReadCurrent(ghost op: nat, ghost kind: Kind, a: Account, ghost token: string) returns (current: nat)
      requires Valid() && ValidAccount(a) && At(op, kind, a, token, Reading)
      modifies this
      ensures Valid() && old(states) <= states && old(acts) <= acts && Now().kv == old(Now()).kv
      ensures CurrentVersion(Now().kv, a) == Some(current)
      ensures At(op, kind, a, token,
                 if kind.Rotate? then Allocating(current, Wrap(current + 1)) else Deleting(current))
    {
      NowInv();
      ghost var v := PointerReads(Now(), a);
      var read := CurrentVersionOf(a);
      current := read.value;
      DoRead(op, current);
    }

    ghost method DoRead(op: nat, current: nat)
      requires Run(states, acts) && Enabled(Now(), Read(op, Answered))
      requires CurrentVersion(Now().kv, Now().ops[op].account) == Some(current)
      modifies this
      ensures Run(states, acts) && Now() == StepRead(old(Now()), op, Some(current), Answered)
      ensures old(states) <= states && old(acts) <= acts
    {
      Do(Read(op, Answered));
    }

    /** The pointer as the manager parses it out of the flat store. */
    method CurrentVersionOf(a: Account) returns (current: Option<nat>)
      requires Valid() && ValidAccount(a)
      ensures current == CurrentVersion(Now().kv, a)
    {
      assert ValidKey(CurrentKey(a));
      var value := store.Get(KeyName(CurrentKey(a)));
      match value
      case None => current := Some(0);
      case Some(Text(t)) =>
        var parsed := ParseInt64(TrimSpace(t));
        current := if parsed.Some? && parsed.value >= 1 then Some(parsed.value) else None;
      case Some(Document(_)) => current := None;
    }

    method TryVersion(ghost op: nat, a: Account, token: string, key: KeyMaterial, plain: Credentials,
                      ghost current: nat, candidate: nat, nonce: nat) returns (envelope: Envelope, created: bool)
      requires Valid() && ValidIdentity(a, candidate, key.id) && ValidCredentials(plain)
      requires At(op, Kind.Rotate(key, plain), a, token, Allocating(current, candidate)) && MoreCandidates(current, candidate)
      modifies this, store
      ensures Valid() && old(states) <= states && old(acts) <= acts
      ensures Some(envelope) == Encrypt(a, candidate, key, plain, nonce)
      ensures created == (VersionKey(a, candidate) !in old(Now()).kv)
      ensures created ==> Now().kv == old(Now()).kv[VersionKey(a, candidate) := Document(envelope)]
                          && At(op, Kind.Rotate(key, plain), a, token, Verifying(current, candidate, envelope))
      ensures !created ==> Now().kv == old(Now()).kv
                           && At(op, Kind.Rotate(key, plain), a, token, Allocating(current, candidate + 1))
    {
      envelope := Encrypt(a, candidate, key, plain, nonce).value;
      created := WriteVersion(op, a, token, key, plain, current, candidate, envelope, nonce);
    }

    /** The write of a slot, whatever envelope the encryption made. */
    method WriteVersion(ghost op: nat, a: Account, ghost token: string, key: KeyMaterial, ghost plain: Credentials,
                        ghost current: nat, candidate: nat, envelope: Envelope, ghost nonce: nat) returns (created: bool)
      requires Valid() && ValidKey(VersionKey(a, candidate)) && candidate >= 1
      requires At(op, Kind.Rotate(key, plain), a, token, Allocating(current, candidate)) && MoreCandidates(current, candidate)
      requires Encrypt(a, candidate, key, plain, nonce) == Some(envelope)
      modifies this, store
      ensures Valid() && old(states) <= states && old(acts) <= acts
      ensures created == (VersionKey(a, candidate) !in old(Now()).kv)
      ensures created ==> Now().kv == old(Now()).kv[VersionKey(a, candidate) := Document(envelope)]
                          && At(op, Kind.Rotate(key, plain), a, token, Verifying(current, candidate, envelope))
      ensures !created ==> Now().kv == old(Now()).kv
                           && At(op, Kind.Rotate(key, plain), a, token, Allocating(current, candidate + 1))
    {
      var k := VersionKey(a, candidate);
      FlatWrite(store.kv, Now().kv, k, Document(envelope));
      created := store.SetIfAbsent(KeyName(k), Document(envelope));
      DoTry(op, envelope, nonce);
    }

    ghost method DoTry(op: nat, envelope: Envelope, nonce: nat)
      requires Run(states, acts) && Enabled(Now(), Try(op, nonce, Answered)) && Now().ops[op].phase.candidate >= 1
      requires var o := Now().ops[op];
               Encrypt(o.account, o.phase.candidate, o.kind.key, o.kind.plain, nonce) == Some(envelope)
      modifies this
      ensures Run(states, acts) && Now() == StepTry(old(Now()), op, Some(envelope), Answered)
      ensures old(states) <= states && old(acts) <= acts
    {
      Do(Try(op, nonce, Answered));
    }

    method VerifyVersion(ghost op: nat, a: Account, ghost token: string, key: KeyMaterial, ghost plain: Credentials,
                         ghost current: nat, version: nat, envelope: Envelope, ghost nonce: nat) returns (ok: bool)
      requires Valid() && ValidKey(VersionKey(a, version))
      requires At(op, Kind.Rotate(key, plain), a, token, Verifying(current, version, envelope))
      requires VersionKey(a, version) in Now().kv && Now().kv[VersionKey(a, version)] == Document(envelope)
      requires Some(envelope) == Encrypt(a, version, key, plain, nonce)
      modifies this
      ensures Valid() && old(states) <= states && old(acts) <= acts && Now().kv == old(Now()).kv
      ensures ok && At(op, Kind.Rotate(key, plain), a, token, Activating(current, version))
    {
      var stored := store.Get(KeyName(VersionKey(a, version)));
      ok := stored == Some(Document(envelope)) && Validates(envelope, a, version, key.id) && Decrypt(envelope, key).Some?;
      DecryptUndoesEncrypt(a, version, key, plain, nonce);
      Do(Verify(op, Answered));
    }

    method ActivateVersion(ghost op: nat, ghost kind: Kind, a: Account, token: string, ghost current: nat, version: nat)
      returns (activated: bool)
      requires Valid() && ValidAccount(a) && At(op, kind, a, token, Activating(current, version))
      modifies this, store
      ensures Valid() && old(states) <= states && old(acts) <= acts
      ensures activated == OwnsLock(old(Now()).kv, a, token)
      ensures activated ==> Now().kv == old(Now()).kv[CurrentKey(a) := Text(FormatNat(version))]
                            && At(op, kind, a, token, Reporting(Succeeded(version), true))
      ensures !activated ==> Now().kv == old(Now()).kv
                             && At(op, kind, a, token, Reporting(Failed("ACTIVATION_FAILED"), true))
    {
      assert ValidKey(LockKey(a)) && ValidKey(CurrentKey(a));
      FlatWrite(store.kv, Now().kv, CurrentKey(a), Text(FormatNat(version)));
      activated := store.SetIfLockOwner(KeyName(LockKey(a)), token, KeyName(CurrentKey(a)), Text(FormatNat(version)));
      Do(Activate(op, Answered));
    }

    method DeletePointer(ghost op: nat, ghost kind: Kind, a: Account, token: string, ghost current: nat)
      returns (deleted: bool)
      requires Valid() && ValidAccount(a) && At(op, kind, a, token, Deleting(current))
      modifies this, store
      ensures Valid() && old(states) <= states && old(acts) <= acts
      ensures deleted == OwnsLock(old(Now()).kv, a, token)
      ensures deleted ==> Now().kv == old(Now()).kv - {CurrentKey(a)}
                          && At(op, kind, a, token, Reporting(Succeeded(current), true))
      ensures !deleted ==> Now().kv == old(Now()).kv
                           && At(op, kind, a, token, Reporting(Failed("DISABLE_FAILED"), true))
    {
      assert ValidKey(LockKey(a)) && ValidKey(CurrentKey(a));
      FlatWrite(store.kv, Now().kv, CurrentKey(a), Text(""));
      deleted := store.DeleteIfLockOwner(KeyName(LockKey(a)), token, KeyName(CurrentKey(a)));
      Do(Delete(op, Answered));
    }

    /** The audit record, then the deferred release. */
    method Finish(ghost op: nat, ghost kind: Kind, a: Account, token: string, ghost outcome: Outcome)
      requires Valid() && ValidAccount(a) && At(op, kind, a, token, Reporting(outcome, true))
      modifies this, store
      ensures Valid() && old(states) <= states && old(acts) <= acts
      ensures Now().kv == if OwnsLock(old(Now()).kv, a, token) then old(Now()).kv - {LockKey(a)} else old(Now()).kv
      ensures At(op, kind, a, token, Done(outcome))
    {
      Do(Report(op, Answered));
      assert ValidKey(LockKey(a));
      FlatWrite(store.kv, Now().kv, LockKey(a), Text(token));
      store.ReleaseLock(KeyName(LockKey(a)), token);
      Do(Release(op, Answered));
    }

    method Abandon(ghost op: nat, ghost kind: Kind, ghost a: Account, ghost token: string, ghost outcome: Outcome)
      requires Valid() && At(op, kind, a, token, Reporting(outcome, false))
      modifies this
      ensures Valid() && old(states) <= states && old(acts) <= acts
      ensures Now().kv == old(Now()).kv && At(op, kind, a, token, Done(outcome))
    {
      Do(Report(op, Answered));
    }

    /** How many version slots the account has. */
    ghost function Slots(a: Account): nat
      reads this
    {
      |Created(Now(), a)|
    }

    /** A slot is taken exactly up to the count. */
    lemma SlotTaken(a: Account)
      requires Run(states, acts)
      ensures Slots(a) < INT64_LIMIT
      ensures forall v: nat :: VersionKey(a, v) in Now().kv <==> 1 <= v <= Slots(a)
    {
      NowInv();
      assert AccountOk(Now(), a);
      forall v: nat | 1 <= v <= Slots(a) ensures VersionKey(a, v) in Now().kv {
        assert SlotAt(Now().kv, a, v - 1, Created(Now(), a)[v - 1]);
      }
    }

    /** The candidate loop: the first free slot after the pointer, if it is within reach. */
    method FindSlot(ghost op: nat, a: Account, token: string, key: KeyMaterial, plain: Credentials, current: nat,
                    ghost n: nat, nonces: nat -> nat) returns (created: bool, candidate: nat, envelope: Envelope)
      requires Valid() && ValidIdentity(a, 1, key.id) && ValidCredentials(plain) && current + 1 < INT64_LIMIT
      requires At(op, Kind.Rotate(key, plain), a, token, Allocating(current, current + 1))
      requires current <= n < INT64_LIMIT && forall v: nat :: VersionKey(a, v) in Now().kv <==> 1 <= v <= n
      modifies this, store
      ensures Valid() && old(states) <= states && old(acts) <= acts
      ensures created <==> n < current + 1000 < INT64_LIMIT
      ensures !created ==> Now().kv == old(Now()).kv && !MoreCandidates(current, candidate)
                           && At(op, Kind.Rotate(key, plain), a, token, Allocating(current, candidate))
      ensures created ==> candidate == n + 1 && Encrypt(a, candidate, key, plain, nonces(candidate)) == Some(envelope)
      ensures created ==> Now().kv == old(Now()).kv[VersionKey(a, candidate) := Document(envelope)]
      ensures created ==> At(op, Kind.Rotate(key, plain), a, token, Verifying(current, candidate, envelope))
    {
      ghost var kind := Kind.Rotate(key, plain);
      ghost var start := Now().kv;
      candidate, created := current + 1, false;
      envelope := NO_ENVELOPE;
      while !created && MoreCandidates(current, candidate)
        invariant Valid() && old(states) <= states && old(acts) <= acts
        invariant current + 1 <= candidate
        invariant !created ==> candidate <= n + 1 && Now().kv == start && At(op, kind, a, token, Allocating(current, candidate))
        invariant created ==> candidate == n + 1 <= current + 1000 < INT64_LIMIT
        invariant created ==> Encrypt(a, candidate, key, plain, nonces(candidate)) == Some(envelope)
        invariant created ==> Now().kv == start[VersionKey(a, candidate) := Document(envelope)]
        invariant created ==> At(op, kind, a, token, Verifying(current, candidate, envelope))
        decreases !created, n + 1 - candidate
      {
        envelope, created := TryVersion(op, a, token, key, plain, current, candidate, nonces(candidate));
        if !created { candidate := candidate + 1; }
      }
    }

    /** Allocation and what follows it, under the lock. */
    method Allocate(ghost op: nat, a: Account, token: string, key: KeyMaterial, plain: Credentials, current: nat,
                    ghost n: nat, nonces: nat -> nat) returns (outcome: Outcome)
      requires Valid() && ValidIdentity(a, 1, key.id) && ValidCredentials(plain)
      requires At(op, Kind.Rotate(key, plain), a, token, Allocating(current, Wrap(current + 1)))
      requires OwnsLock(Now().kv, a, token)
      requires current <= n < INT64_LIMIT && forall v: nat :: VersionKey(a, v) in Now().kv <==> 1 <= v <= n
      modifies this, store
      ensures Valid() && old(states) <= states && old(acts) <= acts
      ensures AllocateEffect(old(Now()).kv, Now().kv, a, key, plain, current, n, nonces, outcome)
    {
      ghost var kind := Kind.Rotate(key, plain);
      if Wrap(current + 1) < 1 {
        Do(Try(op, 0, Answered));
        outcome := Failed("ENCRYPT_FAILED");
        Finish(op, kind, a, token, outcome);
        return;
      }
      var created, candidate, envelope := FindSlot(op, a, token, key, plain, current, n, nonces);
      if !created {
        Do(Exhaust(op));
        outcome := Failed("VERSION_EXHAUSTED");
        Finish(op, kind, a, token, outcome);
        return;
      }
      outcome := Succeeded(candidate);
      Commit(op, a, token, key, plain, current, candidate, envelope, nonces(candidate));
    }

    /** Read the new slot back, make it current, report and release. */
    method Commit(ghost op: nat, a: Account, token: string, key: KeyMaterial, ghost plain: Credentials, ghost current: nat,
                  version: nat, envelope: Envelope, ghost nonce: nat)
      requires Valid() && ValidKey(VersionKey(a, version)) && OwnsLock(Now().kv, a, token)
      requires At(op, Kind.Rotate(key, plain), a, token, Verifying(current, version, envelope))
      requires VersionKey(a, version) in Now().kv && Now().kv[VersionKey(a, version)] == Document(envelope)
      requires Some(envelope) == Encrypt(a, version, key, plain, nonce)
      modifies this, store
      ensures Valid() && old(states) <= states && old(acts) <= acts
      ensures Now().kv == old(Now()).kv[CurrentKey(a) := Text(FormatNat(version))] - {LockKey(a)}
    {
      var ok := VerifyVersion(op, a, token, key, plain, current, version, envelope, nonce);
      var activated := ActivateVersion(op, Kind.Rotate(key, plain), a, token, current, version);
      Finish(op, Kind.Rotate(key, plain), a, token, Succeeded(version));
    }

    /**
     Rotate with no other operation stepping in between. With n slots and the pointer at c (0 when absent), it
     fails without a trace when another operation holds the lock; otherwise it fills slot n + 1 and makes it
     current, or gives up, again without a trace, exactly when all of the thousand slots after c are taken or
     their numbers do not fit.
     */
    method Rotate(ghost op: nat, accountId: Account, token: string, key: KeyMaterial, plain: Credentials,
                  nonces: nat -> nat) returns (outcome: Outcome)
      requires Valid() && op !in Now().ops && token !in Now().tokens
      modifies this, store
      ensures Valid() && old(states) <= states && old(acts) <= acts
      ensures var a := Account(accountId.environment, TrimSpace(accountId.broker), TrimSpace(accountId.id));
              if !ValidIdentity(a, 1, key.id) || !ValidCredentials(plain) then
                outcome == Failed("INVALID_REQUEST") && Now().kv == old(Now()).kv
              else
                RotateEffect(old(Now()).kv, Now().kv, a, key, plain, PointerOf(old(Now()).kv, a), old(Slots(a)), nonces, outcome)
    {
      var a := Account(accountId.environment, TrimSpace(accountId.broker), TrimSpace(accountId.id));
      if !ValidIdentity(a, 1, key.id) || !ValidCredentials(plain) {
        return Failed("INVALID_REQUEST");
      }
      outcome := RotateValid(op, a, token, key, plain, nonces);
    }

    method UnderLock(ghost op: nat, a: Account, token: string, key: KeyMaterial, plain: Credentials, ghost c: nat,
                     ghost n: nat, nonces: nat -> nat) returns (outcome: Outcome)
      requires Valid() && ValidIdentity(a, 1, key.id) && ValidCredentials(plain)
      requires At(op, Kind.Rotate(key, plain), a, token, Reading)
      requires OwnsLock(Now().kv, a, token) && CurrentVersion(Now().kv, a) == Some(c)
      requires c <= n < INT64_LIMIT && forall v: nat :: VersionKey(a, v) in Now().kv <==> 1 <= v <= n
      modifies this, store
      ensures Valid() && old(states) <= states && old(acts) <= acts
      ensures AllocateEffect(old(Now()).kv, Now().kv, a, key, plain, c, n, nonces, outcome)
    {
      var current := ReadCurrent(op, Kind.Rotate(key, plain), a, token);
      outcome := Allocate(op, a, token, key, plain, current, n, nonces);
    }

    method RotateValid(ghost op: nat, a: Account, token: string, key: KeyMaterial, plain: Credentials,
                       nonces: nat -> nat) returns (outcome: Outcome)
      requires Valid() && op !in Now().ops && token !in Now().tokens
      requires ValidIdentity(a, 1, key.id) && ValidCredentials(plain)
      modifies this, store
      ensures Valid() && old(states) <= states && old(acts) <= acts
      ensures RotateEffect(old(Now()).kv, Now().kv, a, key, plain, PointerOf(old(Now()).kv, a), old(Slots(a)), nonces, outcome)
    {
      ghost var before := Now().kv;
      ghost var c, n := Facts(a);
      ghost var kind := Kind.Rotate(key, plain);
      var acquired := Enter(op, kind, a, token);
      if !acquired {
        return Failed("ROTATION_IN_PROGRESS");
      }
      PointerParses(Now().kv, a, c);
      outcome := UnderLock(op, a, token, key, plain, c, n, nonces);
      Explain(before, Now().kv, a, token, key, plain, c, n, nonces, outcome);
    }

    lemma Facts(a: Account) returns (c: nat, n: nat)
      requires Run(states, acts)
      ensures c == PointerOf(Now().kv, a) && PointerIs(Now().kv, a, c) && n == Slots(a) && c <= n < INT64_LIMIT
      ensures forall v: nat :: VersionKey(a, v) in Now().kv <==> 1 <= v <= n
    {
      SlotTaken(a);
      NowInv();
      c := PointerReads(Now(), a);
      n := Slots(a);
    }

    /** Disable alone: it removes the pointer, and nothing else, and reports the version it removed. */
    method Disable(ghost op: nat, accountId: Account, token: string) returns (outcome: Outcome)
      requires Valid() && op !in Now().ops && token !in Now().tokens
      modifies this, store
      ensures Valid() && old(states) <= states && old(acts) <= acts
      ensures var a := Account(accountId.environment, TrimSpace(accountId.broker), TrimSpace(accountId.id));
              var before := old(Now()).kv;
              if !ValidAccount(a) then outcome == Failed("INVALID_REQUEST") && Now().kv == before
              else if LockKey(a) in before then outcome == Failed("LOCK_FAILED") && Now().kv == before
              else outcome == Succeeded(PointerOf(before, a)) && Now().kv == before - {CurrentKey(a)}
    {
      var a := Account(accountId.environment, TrimSpace(accountId.broker), TrimSpace(accountId.id));
      if !ValidAccount(a) {
        return Failed("INVALID_REQUEST");
      }
      outcome := DisableValid(op, a, token);
    }

    method DisableUnderLock(ghost op: nat, a: Account, token: string, ghost c: nat) returns (outcome: Outcome)
      requires Valid() && ValidAccount(a) && At(op, Kind.Disable, a, token, Reading)
      requires OwnsLock(Now().kv, a, token) && CurrentVersion(Now().kv, a) == Some(c)
      modifies this, store
      ensures Valid() && old(states) <= states && old(acts) <= acts
      ensures outcome == Succeeded(c) && Now().kv == old(Now()).kv - {CurrentKey(a)} - {LockKey(a)}
    {
      var current := ReadCurrent(op, Kind.Disable, a, token);
      var deleted := DeletePointer(op, Kind.Disable, a, token, current);
      outcome := Succeeded(current);
      Finish(op, Kind.Disable, a, token, outcome);
    }

    method DisableValid(ghost op: nat, a: Account, token: string) returns (outcome: Outcome)
      requires Valid() && op !in Now().ops && token !in Now().tokens && ValidAccount(a)
      modifies this, store
      ensures Valid() && old(states) <= states && old(acts) <= acts
      ensures var before := old(Now()).kv;
              if LockKey(a) in before then outcome == Failed("LOCK_FAILED") && Now().kv == before
              else outcome == Succeeded(PointerOf(before, a)) && Now().kv == before - {CurrentKey(a)}
    {
      ghost var before := Now().kv;
      ghost var c, n := Facts(a);
      var acquired := Enter(op, Kind.Disable, a, token);
      if !acquired {
        return Failed("LOCK_FAILED");
      }
      PointerParses(Now().kv, a, c);
      outcome := DisableUnderLock(op, a, token, c);
      assert before[LockKey(a) := Text(token)] - {CurrentKey(a)} - {LockKey(a)} == before - {CurrentKey(a)};
    }

    /** Who made the envelope that is current. */
    ghost function Current(a: Account): Creation
      requires 1 <= PointerOf(Now().kv, a) <= Slots(a)
      reads this
    {
      Created(Now(), a)[PointerOf(Now().kv, a) - 1]
    }

    /** The current envelope is present and is its creator's. */
    lemma CurrentEnvelope(a: Account)
      requires Run(states, acts) && PointerOf(Now().kv, a) != 0
      ensures 1 <= PointerOf(Now().kv, a) <= Slots(a)
      ensures var v, c := PointerOf(Now().kv, a), Current(a);
              StoredEnvelope(Now().kv, a, v) == Some(c.envelope)
              && Some(c.envelope) == Encrypt(a, v, c.key, c.plain, c.envelope.nonce)
    {
      NowInv();
      var v := PointerReads(Now(), a);
      assert AccountOk(Now(), a) && SlotAt(Now().kv, a, v - 1, Created(Now(), a)[v - 1]);
      assert CreationOk(Created(Now(), a)[v - 1], a, v);
    }

    /**
     Status: not configured exactly when there is no pointer. Otherwise it reports the current version and the
     key it was sealed with; asked to verify, it fails exactly when this manager's key is not that key.
     */
    method GetStatus(accountId: string, environment: string, broker: string, key: KeyMaterial, verify: bool)
      returns (status: Status)
      requires Valid()
      ensures var a := Account(environment, broker, TrimSpace(accountId));
              if !ValidAccount(a) then status == StatusFailed("INVALID_REQUEST")
              else if PointerOf(Now().kv, a) == 0 then status == NotConfigured
              else
                && 1 <= PointerOf(Now().kv, a) <= Slots(a)
                && var v, c := PointerOf(Now().kv, a), Current(a);
                   if !verify then status == Configured(v, c.key.id, false)
                   else if key == c.key then status == Configured(v, c.key.id, true)
                   else status.StatusFailed?
    {
      var a := Account(environment, broker, TrimSpace(accountId));
      if !ValidAccount(a) {
        return StatusFailed("INVALID_REQUEST");
      }
      ghost var p, n := Facts(a);
      PointerParses(Now().kv, a, p);
      var read := CurrentVersionOf(a);
      if read.value == 0 {
        return NotConfigured;
      }
      CurrentEnvelope(a);
      var version := read.value;
      ghost var c := Current(a);
      assert ValidKey(VersionKey(a, version));
      var stored := store.Get(KeyName(VersionKey(a, version)));
      var envelope := stored.value.envelope;
      DecryptUndoesEncrypt(a, version, c.key, c.plain, envelope.nonce);
      if !Validates(envelope, a, version, envelope.keyId) {
        return StatusFailed("envelope identity mismatch");
      }
      if verify && envelope.keyId != key.id {
        return StatusFailed("configured key id does not match");
      }
      if verify && Decrypt(envelope, key).None? {
        return StatusFailed("envelope authentication failed");
      }
      if verify { EnvelopeBoundToIdentity(a, version, c.key, c.plain, envelope.nonce, envelope, key); }
      status := Configured(version, envelope.keyId, verify);
    }
  }
}
