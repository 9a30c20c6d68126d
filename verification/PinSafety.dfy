// What the PIN commands keep over whole runs: retries are conserved, a locked device stays
// locked, and the stored PIN satisfies the policy or has to be changed.

module PinSafety {
  import opened ClientPins
  import opened Results

  datatype Event =
    | Command(q: Params, f: Faults, draw: Fresh)
    | Config(cq: ConfigParams, f: Faults)
    | TokenExpires
    | PowerCycle(draw: Fresh, otherKey: nat)

  function Next(c: Crypto, p: Policy, s: State, e: Event): State
    requires LawfulCrypto(c)
  {
    match e
    case Command(q, f, draw) => OnCommand(c, p, s, q, f, draw).0
    case Config(q, f) => OnConfig(c, p, s, q, f).0
    case TokenExpires => s.(inUse := false, permissions := 0, permissionsRpId := None)
    case PowerCycle(draw, otherKey) =>
      s.(mismatches := 0, keyV1 := draw.key, keyV2 := otherKey, tokenV1 := draw.tokenV1, tokenV2 := draw.tokenV2,
         inUse := false, permissions := 0, permissionsRpId := None)
  }

  /** A device as it leaves a reset: no PIN, all retries, nothing pending. */
  predicate Reset(s: State) {
    && s.pin == None && s.retries == None && s.minLength == None && !s.forceChange
    && s.mismatches == 0 && s.attempts == 0 && !s.inUse
  }

  ghost predicate IsRun(c: Crypto, p: Policy, states: seq<State>, events: seq<Event>)
    requires LawfulCrypto(c)
  {
    && |states| == |events| + 1
    && Reset(states[0])
    && forall i :: 0 <= i < |events| ==> states[i + 1] == Next(c, p, states[i], events[i])
  }

  // ---------- the invariant of every run ----------

  predicate Inv(p: Policy, s: State) {
    && Retries(p, s) + s.attempts == p.maxRetries
    && s.mismatches <= 3 && s.mismatches <= s.attempts
    && (s.pin == None ==> s.retries == None && s.mismatches == 0)
    && (s.pin.Some? ==> s.pin.value.codePoints < PIN_PADDED_LENGTH)
    && (s.pin.Some? ==> s.pin.value.codePoints >= MinLength(p, s) || s.forceChange)
  }

  lemma AttemptKeepsInv(p: Policy, s: State)
    requires Inv(p, s) && Retries(p, s) > 0 && s.pin.Some?
    ensures Inv(p, Attempted(p, s)) && s.mismatches < Attempted(p, s).attempts
  {
  }

  lemma MissKeepsInv(p: Policy, t: State, protocol: Protocol, key: nat)
    requires Inv(p, t) && t.pin.Some? && t.mismatches < 3 && t.mismatches < t.attempts
    ensures Inv(p, Regenerated(t, protocol, key))
    ensures Inv(p, Regenerated(t, protocol, key).(mismatches := t.mismatches + 1))
  {
  }

  lemma HitKeepsInv(p: Policy, t: State)
    requires Inv(p, t)
    ensures Inv(p, RetriesReset(t).(mismatches := 0))
  {
  }

  lemma VerifyKeepsInv(
    p: Policy, s: State, protocol: Protocol, secret: Secret, enc: seq<Bytes.byte>, f: Faults, draw: Fresh)
    requires Inv(p, s) && Retries(p, s) > 0
    ensures Inv(p, VerifyPin(p, s, protocol, secret, enc, f, draw).0)
  {
    if s.pin.Some? && s.mismatches < 3 && !f.decrRetries {
      var t := Attempted(p, s);
      AttemptKeepsInv(p, s);
      MissKeepsInv(p, t, protocol, draw.key);
      HitKeepsInv(p, t);
    }
  }

  lemma StoreNewPinKeepsInv(c: Crypto, p: Policy, s: State, secret: Secret, enc: seq<Bytes.byte>, f: Faults)
    requires LawfulCrypto(c) && Inv(p, s)
    ensures Inv(p, StoreNewPin(c, p, s, secret, enc, f).0)
  {
    if secret.decrypt(enc).Ok? {
      var pin := BeforeZero(secret.decrypt(enc).value);
      BeforeZeroIsShorter(secret.decrypt(enc).value);
      assert c.codePoints(pin) <= |pin|;
    }
  }

  lemma SetPinKeepsInv(c: Crypto, p: Policy, s: State, q: Params, f: Faults)
    requires LawfulCrypto(c) && Inv(p, s)
    ensures Inv(p, OnSetPin(c, p, s, q, f).0)
  {
    if q.keyAgreement.Some? && q.newPinEnc.Some? {
      var secret := c.decapsulate(KeyOf(s, q.protocol), q.keyAgreement.value, q.protocol);
      if secret.Ok? {
        StoreNewPinKeepsInv(c, p, s, secret.value, q.newPinEnc.value, f);
      }
    }
  }

  lemma ChangePinKeepsInv(c: Crypto, p: Policy, s: State, q: Params, f: Faults, draw: Fresh)
    requires LawfulCrypto(c) && Inv(p, s)
    ensures Inv(p, OnChangePin(c, p, s, q, f, draw).0)
  {
    if q.keyAgreement.Some? && q.newPinEnc.Some? && q.pinHashEnc.Some? && Retries(p, s) > 0 {
      var secret := c.decapsulate(KeyOf(s, q.protocol), q.keyAgreement.value, q.protocol);
      if secret.Ok? {
        VerifyKeepsInv(p, s, q.protocol, secret.value, q.pinHashEnc.value, f, draw);
        var t := VerifyPin(p, s, q.protocol, secret.value, q.pinHashEnc.value, f, draw).0;
        StoreNewPinKeepsInv(c, p, t, secret.value, q.newPinEnc.value, f);
      }
    }
  }

  lemma GetTokenKeepsInv(c: Crypto, p: Policy, s: State, q: Params, f: Faults, draw: Fresh)
    requires Inv(p, s)
    ensures Inv(p, OnGetPinToken(c, p, s, q, f, draw).0)
  {
    if q.keyAgreement.Some? && q.pinHashEnc.Some? && Retries(p, s) > 0 {
      var secret := c.decapsulate(KeyOf(s, q.protocol), q.keyAgreement.value, q.protocol);
      if secret.Ok? {
        VerifyKeepsInv(p, s, q.protocol, secret.value, q.pinHashEnc.value, f, draw);
      }
    }
  }

  lemma CommandKeepsInv(c: Crypto, p: Policy, s: State, q: Params, f: Faults, draw: Fresh)
    requires LawfulCrypto(c) && Inv(p, s)
    ensures Inv(p, OnCommand(c, p, s, q, f, draw).0)
  {
    match q.sub
    case SetPin => SetPinKeepsInv(c, p, s, q, f);
    case ChangePin => ChangePinKeepsInv(c, p, s, q, f, draw);
    case GetPinToken => GetTokenKeepsInv(c, p, s, q, f, draw);
    case GetTokenUsingPin =>
      GetTokenKeepsInv(c, p, s, q.(permissions := None, permissionsRpId := None), f, draw);
    case _ =>
  }

  lemma SetMinLengthKeepsInv(p: Policy, s: State, q: MinLengthParams, f: Faults)
    requires Inv(p, s)
    ensures Inv(p, OnSetMinLength(p, s, q, f).0)
  {
  }

  lemma ConfigKeepsInv(c: Crypto, p: Policy, s: State, q: ConfigParams, f: Faults)
    requires Inv(p, s)
    ensures Inv(p, OnConfig(c, p, s, q, f).0)
  {
    hide OnSetMinLength;
    if q.sub.SetMinLength? && q.sub.params.Some? {
      SetMinLengthKeepsInv(p, s, q.sub.params.value, f);
    }
  }

  lemma StepKeepsInv(c: Crypto, p: Policy, s: State, e: Event)
    requires LawfulCrypto(c) && Inv(p, s)
    ensures Inv(p, Next(c, p, s, e))
  {
    hide OnCommand, OnConfig;
    if e.Command? {
      CommandKeepsInv(c, p, s, e.q, e.f, e.draw);
    } else if e.Config? {
      ConfigKeepsInv(c, p, s, e.cq, e.f);
    }
  }

  lemma ResetIsInv(p: Policy, s: State)
    requires Reset(s)
    ensures Inv(p, s)
  {
  }

  lemma {:induction false} RunKeepsInv(c: Crypto, p: Policy, states: seq<State>, events: seq<Event>, i: nat)
    requires LawfulCrypto(c) && IsRun(c, p, states, events) && i < |states|
    ensures Inv(p, states[i])
    decreases i
  {
    if i == 0 {
      ResetIsInv(p, states[0]);
    } else {
      hide Next, Inv, LawfulCrypto;
      RunKeepsInv(c, p, states, events, i - 1);
      StepKeepsInv(c, p, states[i - 1], events[i - 1]);
    }
  }

  // ---------- theorems over every run ----------

  /**
   * Retry conservation: the retries left and the comparisons made since the last success add
   * up to the maximum, and consecutive mismatches stop at three.
   */
  lemma RetriesAreConserved(c: Crypto, p: Policy, states: seq<State>, events: seq<Event>, i: nat)
    requires LawfulCrypto(c) && IsRun(c, p, states, events) && i < |states|
    ensures Retries(p, states[i]) + states[i].attempts == p.maxRetries
    ensures states[i].mismatches <= 3 && states[i].mismatches <= states[i].attempts
  {
    RunKeepsInv(c, p, states, events, i);
  }

  /** The answer cost a retry, or was right and gave them all back. */
  predicate PaidFor(p: Policy, s: State, answer: (State, Option<Status>)) {
    Retries(p, answer.0) == Retries(p, s) - 1 || (answer.1 == None && Retries(p, answer.0) == p.maxRetries)
  }

  /**
   * A guess is never free: when two guesses get different answers, each was paid for. Only the
   * stored hash is accepted.
   */
  lemma NoFreeGuess(
    p: Policy, s: State, protocol: Protocol, secret: Secret, a: seq<Bytes.byte>, b: seq<Bytes.byte>, f: Faults,
    draw: Fresh)
    requires Retries(p, s) > 0
    ensures var x, y := VerifyPin(p, s, protocol, secret, a, f, draw), VerifyPin(p, s, protocol, secret, b, f, draw);
      x == y || (PaidFor(p, s, x) && PaidFor(p, s, y))
    ensures VerifyPin(p, s, protocol, secret, a, f, draw).1 == None ==>
      s.pin.Some? && secret.decrypt(a) == Ok(s.pin.value.hash)
  {
    if s.pin.Some? && s.mismatches < 3 && !f.decrRetries {
      GuessIsPaidFor(p, s, protocol, secret, a, f, draw);
      GuessIsPaidFor(p, s, protocol, secret, b, f, draw);
      hide VerifyPin;
    }
  }

  lemma GuessIsPaidFor(
    p: Policy, s: State, protocol: Protocol, secret: Secret, a: seq<Bytes.byte>, f: Faults, draw: Fresh)
    requires Retries(p, s) > 0 && s.pin.Some? && s.mismatches < 3 && !f.decrRetries
    ensures PaidFor(p, s, VerifyPin(p, s, protocol, secret, a, f, draw))
    ensures VerifyPin(p, s, protocol, secret, a, f, draw).1 == None ==> secret.decrypt(a) == Ok(s.pin.value.hash)
  {
  }

  predicate Locked(p: Policy, s: State) {
    s.pin.Some? && (s.mismatches >= 3 || Retries(p, s) == 0)
  }

  lemma LockedChange(c: Crypto, p: Policy, s: State, q: Params, f: Faults, draw: Fresh)
    requires LawfulCrypto(c) && Locked(p, s)
    ensures OnChangePin(c, p, s, q, f, draw).0 == s && OnChangePin(c, p, s, q, f, draw).1.Some?
  {
  }

  lemma LockedGetToken(c: Crypto, p: Policy, s: State, q: Params, f: Faults, draw: Fresh)
    requires Locked(p, s)
    ensures OnGetPinToken(c, p, s, q, f, draw).0 == s && OnGetPinToken(c, p, s, q, f, draw).1.Err?
  {
  }

  /** While locked, no PIN command changes the PIN or the retries or hands out a token. */
  lemma LockedCommandsDoNothing(c: Crypto, p: Policy, s: State, q: Params, f: Faults, draw: Fresh)
    requires LawfulCrypto(c) && Locked(p, s)
    ensures OnCommand(c, p, s, q, f, draw).0 == s
    ensures var r := OnCommand(c, p, s, q, f, draw).1; r.Ok? ==> r.value.PinRetries? || r.value.KeyAgreement?
  {
    LockedChange(c, p, s, q, f, draw);
    LockedGetToken(c, p, s, q, f, draw);
    LockedGetToken(c, p, s, q.(permissions := None, permissionsRpId := None), f, draw);
  }

  /** Configuration never touches the PIN, the retries or the mismatch count, and the minimum length only grows. */
  lemma ConfigLeavesThePin(c: Crypto, p: Policy, s: State, q: ConfigParams, f: Faults)
    ensures var t := OnConfig(c, p, s, q, f).0;
      && t.pin == s.pin && t.retries == s.retries && t.mismatches == s.mismatches
      && MinLength(p, s) <= MinLength(p, t)
  {
    if q.sub.SetMinLength? && q.sub.params.Some? {
      SetMinLengthLeavesThePin(p, s, q.sub.params.value, f);
    }
  }

  lemma SetMinLengthLeavesThePin(p: Policy, s: State, q: MinLengthParams, f: Faults)
    ensures var t := OnSetMinLength(p, s, q, f).0;
      && t.pin == s.pin && t.retries == s.retries && t.mismatches == s.mismatches
      && MinLength(p, s) <= MinLength(p, t)
  {
  }

  /** A locked device keeps its PIN and its retries in every step; only power changes the mismatch count. */
  lemma LockedStep(c: Crypto, p: Policy, s: State, e: Event)
    requires LawfulCrypto(c) && Locked(p, s)
    ensures Next(c, p, s, e).pin == s.pin && Next(c, p, s, e).retries == s.retries
    ensures !e.PowerCycle? ==> Next(c, p, s, e).mismatches == s.mismatches
  {
    if e.Command? {
      LockedCommandsDoNothing(c, p, s, e.q, e.f, e.draw);
    } else if e.Config? {
      ConfigLeavesThePin(c, p, s, e.cq, e.f);
    }
  }

  /** At zero retries only a reset helps: every run from there keeps the PIN and stays at zero. */
  lemma {:induction false} ZeroRetriesStay(
    c: Crypto, p: Policy, states: seq<State>, events: seq<Event>, i: nat, j: nat)
    requires LawfulCrypto(c) && IsRun(c, p, states, events) && i <= j < |states|
    requires states[i].pin.Some? && Retries(p, states[i]) == 0
    ensures Retries(p, states[j]) == 0 && states[j].pin == states[i].pin
    decreases j
  {
    if i < j {
      ZeroRetriesStay(c, p, states, events, i, j - 1);
      LockedStep(c, p, states[j - 1], events[j - 1]);
    }
  }

  /** Three mismatches in a row lock the device until it is power-cycled. */
  lemma {:induction false} MismatchLockHolds(
    c: Crypto, p: Policy, states: seq<State>, events: seq<Event>, i: nat, j: nat)
    requires LawfulCrypto(c) && IsRun(c, p, states, events) && i <= j < |states|
    requires states[i].mismatches >= 3
    requires forall k :: i <= k < j ==> !events[k].PowerCycle?
    ensures states[j].mismatches >= 3 && states[j].pin == states[i].pin && states[j].retries == states[i].retries
    decreases j
  {
    if i < j {
      MismatchLockHolds(c, p, states, events, i, j - 1);
      RunKeepsInv(c, p, states, events, j - 1);
      LockedStep(c, p, states[j - 1], events[j - 1]);
    }
  }

  /**
   * The joint policy: a stored PIN is long enough or has to be changed, whatever write failed
   * in between.
   */
  lemma PolicyHolds(c: Crypto, p: Policy, states: seq<State>, events: seq<Event>, i: nat)
    requires LawfulCrypto(c) && IsRun(c, p, states, events) && i < |states|
    ensures states[i].pin.Some? ==>
      states[i].forceChange || MinLength(p, states[i]) <= states[i].pin.value.codePoints < PIN_PADDED_LENGTH
  {
    RunKeepsInv(c, p, states, events, i);
  }

  /** What a state shows when a token is due: a good PIN, and no lock. */
  predicate GoodPin(p: Policy, s: State) {
    && !s.forceChange && s.pin.Some? && s.pin.value.codePoints >= MinLength(p, s)
    && s.mismatches < 3 && Retries(p, s) > 0
  }

  lemma VerifiedPin(
    p: Policy, s: State, protocol: Protocol, secret: Secret, enc: seq<Bytes.byte>, f: Faults, draw: Fresh)
    ensures var (t, e) := VerifyPin(p, s, protocol, secret, enc, f, draw);
      e == None ==>
        && s.pin.Some? && s.mismatches < 3 && t.forceChange == s.forceChange
        && t.retries == None && t.mismatches == 0
  {
  }

  lemma TokenFromGetPinToken(c: Crypto, p: Policy, s: State, q: Params, f: Faults, draw: Fresh)
    requires Inv(p, s)
    ensures var (t, r) := OnGetPinToken(c, p, s, q, f, draw);
      r.Ok? ==> GoodPin(p, s) && t.retries == None && t.mismatches == 0 && t.inUse
  {
    if q.keyAgreement.Some? && q.pinHashEnc.Some? {
      var secret := c.decapsulate(KeyOf(s, q.protocol), q.keyAgreement.value, q.protocol);
      if secret.Ok? {
        VerifiedPin(p, s, q.protocol, secret.value, q.pinHashEnc.value, f, draw);
      }
    }
    hide VerifyPin;
  }

  /** A token is handed out only for a PIN that is set, long enough and not due for a change. */
  lemma TokensNeedAGoodPin(
    c: Crypto, p: Policy, states: seq<State>, events: seq<Event>, i: nat, q: Params, f: Faults, draw: Fresh)
    requires LawfulCrypto(c) && IsRun(c, p, states, events) && i < |states|
    ensures var (t, r) := OnCommand(c, p, states[i], q, f, draw);
      r.Ok? && r.value.Token? ==> GoodPin(p, states[i]) && t.retries == None && t.mismatches == 0 && t.inUse
  {
    RunKeepsInv(c, p, states, events, i);
    TokenFromGetPinToken(c, p, states[i], q, f, draw);
    TokenFromGetPinToken(c, p, states[i], q.(permissions := None, permissionsRpId := None), f, draw);
    hide OnGetPinToken, OnSetPin, OnChangePin;
  }

  // ---------- nothing without the right PIN ----------

  /** The command carries the stored PIN's hash under the agreed secret. */
  predicate RightPin(c: Crypto, s: State, q: Params) {
    && q.keyAgreement.Some? && q.pinHashEnc.Some? && s.pin.Some?
    && var secret := c.decapsulate(KeyOf(s, q.protocol), q.keyAgreement.value, q.protocol);
       secret.Ok? && secret.value.decrypt(q.pinHashEnc.value) == Ok(s.pin.value.hash)
  }

  lemma VerifyKeepsThePin(
    p: Policy, s: State, protocol: Protocol, secret: Secret, enc: seq<Bytes.byte>, f: Faults, draw: Fresh)
    ensures VerifyPin(p, s, protocol, secret, enc, f, draw).0.pin == s.pin
    ensures VerifyPin(p, s, protocol, secret, enc, f, draw).0.minLength == s.minLength
  {
  }

  lemma WrongPinPays(
    p: Policy, s: State, protocol: Protocol, secret: Secret, enc: seq<Bytes.byte>, f: Faults, draw: Fresh)
    ensures var (t, e) := VerifyPin(p, s, protocol, secret, enc, f, draw);
      && (e == None ==> s.pin.Some? && secret.decrypt(enc) == Ok(s.pin.value.hash))
      && (e.Some? ==> Retries(p, t) <= Retries(p, s))
  {
  }

  lemma StoredPinIsLongEnough(c: Crypto, p: Policy, s: State, secret: Secret, enc: seq<Bytes.byte>, f: Faults)
    requires LawfulCrypto(c)
    ensures var t := StoreNewPin(c, p, s, secret, enc, f).0;
      && t.retries == s.retries
      && (t.pin != s.pin ==> t.pin.Some? && t.pin.value.codePoints >= MinLength(p, s) && !t.forceChange)
  {
  }

  /** What a PIN command may change: the PIN or the retries grow only as stated below. */
  ghost predicate EarnedBy(p: Policy, s: State, t: State, right: bool) {
    && (Retries(p, t) > Retries(p, s) ==> right)
    && (t.pin != s.pin ==>
          && t.pin.Some? && t.pin.value.codePoints >= MinLength(p, s) && !t.forceChange
          && (s.pin == None || right))
  }

  lemma SetPinEarned(c: Crypto, p: Policy, s: State, q: Params, f: Faults)
    requires LawfulCrypto(c) && Inv(p, s)
    ensures EarnedBy(p, s, OnSetPin(c, p, s, q, f).0, false)
  {
    if q.keyAgreement.Some? && q.newPinEnc.Some? {
      var secret := c.decapsulate(KeyOf(s, q.protocol), q.keyAgreement.value, q.protocol);
      if secret.Ok? {
        StoredPinIsLongEnough(c, p, s, secret.value, q.newPinEnc.value, f);
      }
    }
    hide StoreNewPin;
  }

  lemma ChangePinEarned(c: Crypto, p: Policy, s: State, q: Params, f: Faults, draw: Fresh)
    requires LawfulCrypto(c) && Inv(p, s)
    ensures EarnedBy(p, s, OnChangePin(c, p, s, q, f, draw).0, RightPin(c, s, q))
  {
    if q.keyAgreement.Some? && q.newPinEnc.Some? && q.pinHashEnc.Some? {
      var secret := c.decapsulate(KeyOf(s, q.protocol), q.keyAgreement.value, q.protocol);
      if secret.Ok? {
        VerifyKeepsThePin(p, s, q.protocol, secret.value, q.pinHashEnc.value, f, draw);
        WrongPinPays(p, s, q.protocol, secret.value, q.pinHashEnc.value, f, draw);
        var t := VerifyPin(p, s, q.protocol, secret.value, q.pinHashEnc.value, f, draw).0;
        StoredPinIsLongEnough(c, p, t, secret.value, q.newPinEnc.value, f);
      }
    }
    hide StoreNewPin, VerifyPin;
  }

  lemma GetTokenEarned(c: Crypto, p: Policy, s: State, q: Params, f: Faults, draw: Fresh)
    requires Inv(p, s)
    ensures EarnedBy(p, s, OnGetPinToken(c, p, s, q, f, draw).0, RightPin(c, s, q))
    ensures OnGetPinToken(c, p, s, q, f, draw).1.Ok? ==> RightPin(c, s, q)
  {
    if q.keyAgreement.Some? && q.pinHashEnc.Some? {
      var secret := c.decapsulate(KeyOf(s, q.protocol), q.keyAgreement.value, q.protocol);
      if secret.Ok? {
        VerifyKeepsThePin(p, s, q.protocol, secret.value, q.pinHashEnc.value, f, draw);
        WrongPinPays(p, s, q.protocol, secret.value, q.pinHashEnc.value, f, draw);
      }
    }
    hide VerifyPin;
  }

  lemma GetTokenUsingPinEarned(c: Crypto, p: Policy, s: State, q: Params, f: Faults, draw: Fresh)
    requires Inv(p, s)
    ensures EarnedBy(p, s, OnGetTokenUsingPin(c, p, s, q, f, draw).0, RightPin(c, s, q))
    ensures OnGetTokenUsingPin(c, p, s, q, f, draw).1.Ok? ==> RightPin(c, s, q)
  {
    var plain := q.(permissions := None, permissionsRpId := None);
    GetTokenEarned(c, p, s, plain, f, draw);
    assert RightPin(c, s, plain) == RightPin(c, s, q);
    hide OnGetPinToken, RightPin;
  }

  lemma UnchangedIsEarned(p: Policy, s: State, right: bool)
    ensures EarnedBy(p, s, s, right)
    ensures forall t {:trigger EarnedBy(p, s, t, right)} :: EarnedBy(p, s, t, false) ==> EarnedBy(p, s, t, right)
  {
  }

  lemma CommandEarned(c: Crypto, p: Policy, s: State, q: Params, f: Faults, draw: Fresh)
    requires LawfulCrypto(c) && Inv(p, s)
    ensures EarnedBy(p, s, OnCommand(c, p, s, q, f, draw).0, RightPin(c, s, q))
    ensures var r := OnCommand(c, p, s, q, f, draw).1; r.Ok? && r.value.Token? ==> RightPin(c, s, q)
  {
    hide OnSetPin, OnChangePin, OnGetPinToken, OnGetTokenUsingPin, RightPin, EarnedBy, Inv, LawfulCrypto;
    UnchangedIsEarned(p, s, RightPin(c, s, q));
    match q.sub
    case SetPin => SetPinEarned(c, p, s, q, f);
    case ChangePin => ChangePinEarned(c, p, s, q, f, draw);
    case GetPinToken => GetTokenEarned(c, p, s, q, f, draw);
    case GetTokenUsingPin => GetTokenUsingPinEarned(c, p, s, q, f, draw);
    case _ =>
  }

  /**
   * Whoever cannot send the stored PIN's hash gets no token, no retries back, and cannot replace
   * a PIN; and a PIN that does get stored is long enough and needs no change.
   */
  lemma NothingWithoutTheRightPin(
    c: Crypto, p: Policy, states: seq<State>, events: seq<Event>, i: nat, q: Params, f: Faults, draw: Fresh)
    requires LawfulCrypto(c) && IsRun(c, p, states, events) && i < |states|
    ensures var (t, r) := OnCommand(c, p, states[i], q, f, draw);
      && EarnedBy(p, states[i], t, RightPin(c, states[i], q))
      && (r.Ok? && r.value.Token? ==> RightPin(c, states[i], q))
  {
    RunKeepsInv(c, p, states, events, i);
    CommandEarned(c, p, states[i], q, f, draw);
    hide OnCommand, RightPin, EarnedBy;
  }

  lemma VerifiedIff(
    p: Policy, s: State, protocol: Protocol, secret: Secret, enc: seq<Bytes.byte>, f: Faults, draw: Fresh)
    requires Retries(p, s) > 0
    ensures VerifyPin(p, s, protocol, secret, enc, f, draw).1 == None <==>
      && s.pin.Some? && s.mismatches < 3 && secret.decrypt(enc) == Ok(s.pin.value.hash)
      && !f.decrRetries && !f.resetRetries
  {
  }

  /** The token to be sent can be encrypted under the agreed secret. */
  predicate CanAnswer(c: Crypto, s: State, q: Params, draw: Fresh)
    requires q.keyAgreement.Some?
  {
    var secret := c.decapsulate(KeyOf(s, q.protocol), q.keyAgreement.value, q.protocol);
    secret.Ok? && secret.value.encrypt(if q.protocol == V1 then draw.tokenV1 else draw.tokenV2).Ok?
  }

  /**
   * Exactly who gets a token: the holder of the right PIN, on a device that is not locked and
   * whose PIN is good, when the two retry writes go through.
   */
  lemma TokenIff(c: Crypto, p: Policy, s: State, q: Params, f: Faults, draw: Fresh)
    requires Inv(p, s)
    ensures OnGetPinToken(c, p, s, q, f, draw).1.Ok? <==>
      && q.permissions == None && q.permissionsRpId == None
      && RightPin(c, s, q) && GoodPin(p, s) && !f.decrRetries && !f.resetRetries
      && CanAnswer(c, s, q, draw)
  {
    hide VerifyPin;
    if q.keyAgreement.Some? && q.pinHashEnc.Some? && Retries(p, s) > 0 {
      var secret := c.decapsulate(KeyOf(s, q.protocol), q.keyAgreement.value, q.protocol);
      if secret.Ok? {
        VerifiedIff(p, s, q.protocol, secret.value, q.pinHashEnc.value, f, draw);
        VerifiedPin(p, s, q.protocol, secret.value, q.pinHashEnc.value, f, draw);
      }
    }
  }

  /** The minimum length only grows. */
  lemma {:induction false} MinLengthNeverShrinks(
    c: Crypto, p: Policy, states: seq<State>, events: seq<Event>, i: nat, j: nat)
    requires LawfulCrypto(c) && IsRun(c, p, states, events) && i <= j < |states|
    ensures MinLength(p, states[i]) <= MinLength(p, states[j])
    decreases j
  {
    hide Next, MinLength, LawfulCrypto;
    if i < j {
      MinLengthNeverShrinks(c, p, states, events, i, j - 1);
      StepKeepsMinLength(c, p, states[j - 1], events[j - 1]);
    }
  }

  lemma StepKeepsMinLength(c: Crypto, p: Policy, s: State, e: Event)
    requires LawfulCrypto(c)
    ensures MinLength(p, s) <= MinLength(p, Next(c, p, s, e))
  {
    hide OnCommand, OnConfig;
    if e.Command? {
      CommandKeepsMinLength(c, p, s, e.q, e.f, e.draw);
    } else if e.Config? {
      ConfigLeavesThePin(c, p, s, e.cq, e.f);
    }
  }

  lemma VerifyKeepsMinLength(
    p: Policy, s: State, protocol: Protocol, secret: Secret, enc: seq<Bytes.byte>, f: Faults, draw: Fresh)
    ensures VerifyPin(p, s, protocol, secret, enc, f, draw).0.minLength == s.minLength
  {
  }

  lemma StoreKeepsMinLength(c: Crypto, p: Policy, s: State, secret: Secret, enc: seq<Bytes.byte>, f: Faults)
    requires LawfulCrypto(c)
    ensures StoreNewPin(c, p, s, secret, enc, f).0.minLength == s.minLength
  {
  }

  lemma SetPinKeepsMinLength(c: Crypto, p: Policy, s: State, q: Params, f: Faults)
    requires LawfulCrypto(c)
    ensures OnSetPin(c, p, s, q, f).0.minLength == s.minLength
  {
  }

  lemma ChangePinKeepsMinLength(c: Crypto, p: Policy, s: State, q: Params, f: Faults, draw: Fresh)
    requires LawfulCrypto(c)
    ensures OnChangePin(c, p, s, q, f, draw).0.minLength == s.minLength
  {
    hide VerifyPin, StoreNewPin;
    if q.keyAgreement.Some? && q.newPinEnc.Some? && q.pinHashEnc.Some? {
      var secret := c.decapsulate(KeyOf(s, q.protocol), q.keyAgreement.value, q.protocol);
      if secret.Ok? {
        VerifyKeepsMinLength(p, s, q.protocol, secret.value, q.pinHashEnc.value, f, draw);
        var t := VerifyPin(p, s, q.protocol, secret.value, q.pinHashEnc.value, f, draw).0;
        StoreKeepsMinLength(c, p, t, secret.value, q.newPinEnc.value, f);
      }
    }
  }

  lemma GetTokenKeepsMinLength(c: Crypto, p: Policy, s: State, q: Params, f: Faults, draw: Fresh)
    ensures OnGetPinToken(c, p, s, q, f, draw).0.minLength == s.minLength
  {
    hide VerifyPin;
    if q.keyAgreement.Some? && q.pinHashEnc.Some? {
      var secret := c.decapsulate(KeyOf(s, q.protocol), q.keyAgreement.value, q.protocol);
      if secret.Ok? {
        VerifyKeepsMinLength(p, s, q.protocol, secret.value, q.pinHashEnc.value, f, draw);
      }
    }
  }

  lemma CommandKeepsMinLength(c: Crypto, p: Policy, s: State, q: Params, f: Faults, draw: Fresh)
    requires LawfulCrypto(c)
    ensures OnCommand(c, p, s, q, f, draw).0.minLength == s.minLength
  {
    match q.sub
    case SetPin => SetPinKeepsMinLength(c, p, s, q, f);
    case ChangePin => ChangePinKeepsMinLength(c, p, s, q, f, draw);
    case GetPinToken => GetTokenKeepsMinLength(c, p, s, q, f, draw);
    case GetTokenUsingPin =>
      GetTokenKeepsMinLength(c, p, s, q.(permissions := None, permissionsRpId := None), f, draw);
    case _ =>
  }

  /** Once a PIN is set, its policy changes only for the holder of a live token with the permission. */
  lemma ConfigNeedsAToken(c: Crypto, p: Policy, s: State, q: ConfigParams, f: Faults)
    requires s.pin.Some? && OnConfig(c, p, s, q, f).0 != s
    ensures s.inUse && s.permissions & CONFIGURATION != 0
    ensures q.authParam.Some? && q.protocol.Some?
    ensures c.verifyToken(if q.protocol.value == V1 then s.tokenV1 else s.tokenV2, q.message, q.authParam.value,
                          q.protocol.value) == None
  {
  }

  // ---------- where a token in use comes from ----------

  function Tokens(s: State): (Bytes.ByteString, Bytes.ByteString) { (s.tokenV1, s.tokenV2) }

  function DrawOf(e: Event): (Bytes.ByteString, Bytes.ByteString)
    requires e.Command?
  {
    (e.draw.tokenV1, e.draw.tokenV2)
  }

  /** A token request with the right PIN that draws new tokens, and the permissions it grants. */
  predicate Earns(c: Crypto, s: State, e: Event, t: State) {
    && e.Command? && RightPin(c, s, e.q) && t.inUse && t.pin == s.pin && Tokens(t) == DrawOf(e)
    && e.q.sub in {GetPinToken, GetTokenUsingPin}
    && (t.permissions == 0x03 || (e.q.sub == GetTokenUsingPin && e.q.permissions == Some(t.permissions)))
  }

  /** A change of PIN by who knows it, which draws new tokens and hands out none. */
  predicate Redraws(c: Crypto, s: State, e: Event, t: State) {
    e.Command? && e.q.sub == ChangePin && RightPin(c, s, e.q) && t.pin.Some? && Tokens(t) == DrawOf(e)
  }

  predicate SameToken(s: State, t: State) { Tokens(t) == Tokens(s) && (t.pin == s.pin || s.pin == None) }

  predicate SameUse(s: State, t: State) { t.inUse == s.inUse && t.permissions == s.permissions }

  /** The token in use after a step was in use before it, or the step earned it. */
  ghost predicate UseIsEarned(c: Crypto, s: State, e: Event, t: State) {
    t.inUse ==>
      || Earns(c, s, e, t)
      || (s.inUse && t.permissions == s.permissions && (SameToken(s, t) || Redraws(c, s, e, t)))
  }

  lemma VerifyKeepsUse(
    p: Policy, s: State, protocol: Protocol, secret: Secret, enc: seq<Bytes.byte>, f: Faults, draw: Fresh)
    ensures var t := VerifyPin(p, s, protocol, secret, enc, f, draw).0;
      SameUse(s, t) && Tokens(t) == Tokens(s) && t.pin == s.pin
  {
  }

  lemma StoreKeepsUse(c: Crypto, p: Policy, s: State, secret: Secret, enc: seq<Bytes.byte>, f: Faults)
    requires LawfulCrypto(c)
    ensures var (t, e) := StoreNewPin(c, p, s, secret, enc, f);
      && SameUse(s, t) && Tokens(t) == Tokens(s)
      && (if e == None then t.pin.Some? else t.pin == s.pin)
  {
  }

  lemma SetPinUse(c: Crypto, p: Policy, s: State, q: Params, f: Faults)
    requires LawfulCrypto(c)
    ensures var t := OnSetPin(c, p, s, q, f).0; SameUse(s, t) && SameToken(s, t)
  {
    hide StoreNewPin;
    if q.keyAgreement.Some? && q.newPinEnc.Some? {
      var secret := c.decapsulate(KeyOf(s, q.protocol), q.keyAgreement.value, q.protocol);
      if secret.Ok? {
        StoreKeepsUse(c, p, s, secret.value, q.newPinEnc.value, f);
      }
    }
  }

  lemma ChangePinUse(c: Crypto, p: Policy, s: State, q: Params, f: Faults, draw: Fresh)
    requires LawfulCrypto(c)
    ensures var t := OnChangePin(c, p, s, q, f, draw).0;
      && SameUse(s, t)
      && (SameToken(s, t) || (RightPin(c, s, q) && t.pin.Some? && Tokens(t) == (draw.tokenV1, draw.tokenV2)))
  {
    hide VerifyPin, StoreNewPin;
    if q.keyAgreement.Some? && q.newPinEnc.Some? && q.pinHashEnc.Some? {
      var secret := c.decapsulate(KeyOf(s, q.protocol), q.keyAgreement.value, q.protocol);
      if secret.Ok? {
        VerifyKeepsUse(p, s, q.protocol, secret.value, q.pinHashEnc.value, f, draw);
        WrongPinPays(p, s, q.protocol, secret.value, q.pinHashEnc.value, f, draw);
        var t := VerifyPin(p, s, q.protocol, secret.value, q.pinHashEnc.value, f, draw).0;
        StoreKeepsUse(c, p, t, secret.value, q.newPinEnc.value, f);
      }
    }
  }

  lemma GetTokenUse(c: Crypto, p: Policy, s: State, q: Params, f: Faults, draw: Fresh)
    ensures var (t, r) := OnGetPinToken(c, p, s, q, f, draw);
      && t.pin == s.pin
      && ((SameUse(s, t) && Tokens(t) == Tokens(s) && r.Err?)
          || (RightPin(c, s, q) && t.permissions == 0x03 && Tokens(t) == (draw.tokenV1, draw.tokenV2)))
  {
    hide VerifyPin;
    if q.keyAgreement.Some? && q.pinHashEnc.Some? {
      var secret := c.decapsulate(KeyOf(s, q.protocol), q.keyAgreement.value, q.protocol);
      if secret.Ok? {
        VerifyKeepsUse(p, s, q.protocol, secret.value, q.pinHashEnc.value, f, draw);
        WrongPinPays(p, s, q.protocol, secret.value, q.pinHashEnc.value, f, draw);
      }
    }
  }

  lemma GetTokenUsingPinUse(c: Crypto, p: Policy, s: State, q: Params, f: Faults, draw: Fresh)
    ensures var t := OnGetTokenUsingPin(c, p, s, q, f, draw).0;
      && t.pin == s.pin
      && ((SameUse(s, t) && Tokens(t) == Tokens(s))
          || (RightPin(c, s, q) && (t.permissions == 0x03 || q.permissions == Some(t.permissions))
              && Tokens(t) == (draw.tokenV1, draw.tokenV2)))
  {
    hide OnGetPinToken, RightPin;
    var plain := q.(permissions := None, permissionsRpId := None);
    GetTokenUse(c, p, s, plain, f, draw);
    assert RightPin(c, s, plain) == RightPin(c, s, q) by {
      SamePin(c, s, q, plain);
    }
  }

  lemma SamePin(c: Crypto, s: State, q: Params, r: Params)
    requires r.keyAgreement == q.keyAgreement && r.pinHashEnc == q.pinHashEnc && r.protocol == q.protocol
    ensures RightPin(c, s, q) == RightPin(c, s, r)
  {
  }

  lemma CommandUse(c: Crypto, p: Policy, s: State, e: Event)
    requires LawfulCrypto(c) && e.Command?
    ensures UseIsEarned(c, s, e, OnCommand(c, p, s, e.q, e.f, e.draw).0)
  {
    hide OnSetPin, OnChangePin, OnGetPinToken, OnGetTokenUsingPin, RightPin;
    match e.q.sub
    case SetPin => SetPinUse(c, p, s, e.q, e.f);
    case ChangePin => ChangePinUse(c, p, s, e.q, e.f, e.draw);
    case GetPinToken => GetTokenUse(c, p, s, e.q, e.f, e.draw);
    case GetTokenUsingPin => GetTokenUsingPinUse(c, p, s, e.q, e.f, e.draw);
    case _ =>
  }

  lemma ConfigKeepsUse(c: Crypto, p: Policy, s: State, q: ConfigParams, f: Faults)
    ensures var t := OnConfig(c, p, s, q, f).0; SameUse(s, t) && Tokens(t) == Tokens(s) && t.pin == s.pin
  {
    hide ConfigGate;
  }

  lemma StepUse(c: Crypto, p: Policy, s: State, e: Event)
    requires LawfulCrypto(c)
    ensures UseIsEarned(c, s, e, Next(c, p, s, e))
    ensures e.PowerCycle? || e.TokenExpires? ==> !Next(c, p, s, e).inUse
  {
    hide OnCommand, OnConfig, Earns, Redraws;
    if e.Command? {
      CommandUse(c, p, s, e);
    } else if e.Config? {
      ConfigKeepsUse(c, p, s, e.cq, e.f);
    }
  }

  /** The token in use at j was earned at i, with neither a power cycle nor an expiry since. */
  ghost predicate EarnedAt(c: Crypto, states: seq<State>, events: seq<Event>, i: nat, j: nat) {
    && i < j < |states| && |events| + 1 == |states|
    && Earns(c, states[i], events[i], states[i + 1]) && states[j].permissions == states[i + 1].permissions
    && forall k :: i < k < j ==> !events[k].PowerCycle? && !events[k].TokenExpires?
  }

  /**
   * Its value at j is the one drawn at d, when it was earned or at a change of PIN since, and the
   * PIN has not changed after that.
   */
  ghost predicate DrawnAt(c: Crypto, states: seq<State>, events: seq<Event>, i: nat, d: nat, j: nat) {
    && i <= d < j < |states| && |events| + 1 == |states|
    && (d == i || Redraws(c, states[d], events[d], states[d + 1]))
    && events[d].Command? && Tokens(states[j]) == DrawOf(events[d])
    && states[j].pin.Some? && forall k :: d < k <= j ==> states[k].pin == states[j].pin
  }

  /**
   * In every run a token in use was asked for with the right PIN at an earlier step, with the
   * permissions it has, and neither power nor time has ended it since. A change of PIN redraws
   * it, so its value is as new as the PIN.
   */
  lemma {:induction false} TokenInUseWasEarned(
    c: Crypto, p: Policy, states: seq<State>, events: seq<Event>, j: nat) returns (i: nat, d: nat)
    requires LawfulCrypto(c) && IsRun(c, p, states, events) && j < |states|
    requires states[j].inUse
    ensures EarnedAt(c, states, events, i, j) && DrawnAt(c, states, events, i, d, j)
    decreases j
  {
    hide Next, Earns, Redraws, Tokens;
    var s, e, t := states[j - 1], events[j - 1], states[j];
    StepUse(c, p, s, e);
    if Earns(c, s, e, t) {
      i, d := j - 1, j - 1;
      EarnsDraws(c, s, e, t);
    } else {
      i, d := TokenInUseWasEarned(c, p, states, events, j - 1);
      if !SameToken(s, t) {
        d := j - 1;
        RedrawsDraws(c, s, e, t);
      }
    }
  }

  lemma EarnsDraws(c: Crypto, s: State, e: Event, t: State)
    requires Earns(c, s, e, t)
    ensures e.Command? && Tokens(t) == DrawOf(e) && t.pin.Some?
  {
  }

  lemma RedrawsDraws(c: Crypto, s: State, e: Event, t: State)
    requires Redraws(c, s, e, t)
    ensures e.Command? && Tokens(t) == DrawOf(e) && t.pin.Some?
  {
  }

  lemma PlainTokensCannotConfigure(permissions: bv8)
    requires permissions & CONFIGURATION != 0
    ensures permissions != 0x03
  {
  }

  /**
   * In every run, a policy changed under a PIN was changed by one who sent that device's PIN
   * earlier and asked for the permission, in the same power cycle, and the message was verified
   * under a value drawn with the PIN that is set.
   */
  lemma PolicyChangesAreEarned(c: Crypto, p: Policy, states: seq<State>, events: seq<Event>, j: nat)
    returns (i: nat, d: nat)
    requires LawfulCrypto(c) && IsRun(c, p, states, events) && j < |events|
    requires events[j].Config? && states[j].pin.Some? && states[j + 1] != states[j]
    ensures EarnedAt(c, states, events, i, j) && DrawnAt(c, states, events, i, d, j)
    ensures var q := events[i].q;
      q.sub == GetTokenUsingPin && q.permissions.Some? && q.permissions.value & CONFIGURATION != 0
    ensures var q, draw := events[j].cq, events[d].draw;
      && q.authParam.Some? && q.protocol.Some?
      && c.verifyToken(if q.protocol.value == V1 then draw.tokenV1 else draw.tokenV2, q.message, q.authParam.value,
                       q.protocol.value) == None
  {
    ConfigNeedsAToken(c, p, states[j], events[j].cq, events[j].f);
    hide OnConfig, RightPin;
    i, d := TokenInUseWasEarned(c, p, states, events, j);
    PlainTokensCannotConfigure(states[j].permissions);
  }

  // ---------- the device in any run ----------

  /** What one command is answered: a token only for the right PIN, on a device that may hand one out. */
  ghost predicate Proper(c: Crypto, p: Policy, s: State, e: Event, r: Result<Response, Status>) {
    e.Command? && r.Ok? && r.value.Token? ==> RightPin(c, s, e.q) && GoodPin(p, s)
  }

  /** One event on the objects; power-on makes the volatile one anew. */
  method Step(pin: ClientPin, e: Event) returns (after: ClientPin, r: Result<Response, Status>)
    requires LawfulCrypto(pin.crypto)
    modifies pin, pin.store
    ensures after.crypto == pin.crypto && after.store == pin.store && (after == pin || fresh(after))
    ensures after.View() == Next(pin.crypto, pin.store.policy, old(pin.View()), e)
    ensures e.Command? ==> r == OnCommand(pin.crypto, pin.store.policy, old(pin.View()), e.q, e.f, e.draw).1
  {
    hide OnCommand, OnConfig;
    after, r := pin, Ok(NoData);
    match e
    case Command(q, f, draw) => r := pin.ProcessCommand(q, f, draw);
    case Config(cq, f) =>
      var error := pin.ProcessConfig(cq, f);
      if error.Some? {
        r := Err(error.value);
      }
    case TokenExpires => pin.StopUsingToken();
    case PowerCycle(draw, otherKey) =>
      after := new ClientPin(pin.store, pin.crypto, draw, otherKey, pin.attempts);
  }

  lemma StepIsProper(c: Crypto, p: Policy, states: seq<State>, events: seq<Event>, i: nat)
    requires LawfulCrypto(c) && IsRun(c, p, states, events) && i < |events| && events[i].Command?
    ensures var e := events[i]; Proper(c, p, states[i], e, OnCommand(c, p, states[i], e.q, e.f, e.draw).1)
  {
    hide OnCommand, RightPin, GoodPin, IsRun;
    var e := events[i];
    assert |states| == |events| + 1 by {
      RunLength(c, p, states, events);
    }
    NothingWithoutTheRightPin(c, p, states, events, i, e.q, e.f, e.draw);
    TokensNeedAGoodPin(c, p, states, events, i, e.q, e.f, e.draw);
  }

  lemma RunLength(c: Crypto, p: Policy, states: seq<State>, events: seq<Event>)
    requires LawfulCrypto(c) && IsRun(c, p, states, events)
    ensures |states| == |events| + 1
  {
  }

  lemma RunGrows(c: Crypto, p: Policy, states: seq<State>, events: seq<Event>, e: Event)
    requires LawfulCrypto(c) && IsRun(c, p, states, events)
    ensures IsRun(c, p, states + [Next(c, p, states[|events|], e)], events + [e])
  {
    hide Next;
  }

  /**
   * Any events on a device fresh from a reset: the objects follow a run, so the retries left and
   * the comparisons made add up, a token is answered only to the right PIN, and one in use was
   * earned in this power cycle.
   */
  method RunDevice(c: Crypto, p: Policy, events: seq<Event>, draw: Fresh, otherKey: nat)
    returns (pin: ClientPin, answers: seq<Result<Response, Status>>, ghost states: seq<State>)
    requires LawfulCrypto(c)
    ensures pin.store.policy == p && pin.crypto == c
    ensures IsRun(c, p, states, events) && pin.View() == states[|events|]
    ensures pin.store.Retries() + pin.attempts == p.maxRetries && pin.consecutivePinMismatches <= 3
    ensures |answers| == |events|
    ensures forall i :: 0 <= i < |events| ==> Proper(c, p, states[i], events[i], answers[i])
    ensures pin.inUse ==>
      exists i, d :: EarnedAt(c, states, events, i, |events|) && DrawnAt(c, states, events, i, d, |events|)
  {
    hide Next, IsRun, RightPin, GoodPin, OnCommand, Proper, EarnedAt, DrawnAt, LawfulCrypto;
    var store := new Store(p);
    pin := new ClientPin(store, c, draw, otherKey, 0);
    answers, states := [], [pin.View()];
    StartOfRun(c, p, pin.View());
    assert events[..0] == [];
    for n := 0 to |events|
      invariant fresh(pin) && fresh(pin.store) && pin.store.policy == p && pin.crypto == c
      invariant |states| == n + 1 && IsRun(c, p, states, events[..n]) && pin.View() == states[n]
      invariant |answers| == n
      invariant forall i :: 0 <= i < n && events[i].Command? ==>
        var e := events[i]; answers[i] == OnCommand(c, p, states[i], e.q, e.f, e.draw).1
    {
      RunGrows(c, p, states, events[..n], events[n]);
      assert events[..n + 1] == events[..n] + [events[n]];
      var answer;
      pin, answer := Step(pin, events[n]);
      answers, states := answers + [answer], states + [pin.View()];
    }
    assert events[..|events|] == events;
    forall i | 0 <= i < |events| ensures Proper(c, p, states[i], events[i], answers[i]) {
      if events[i].Command? {
        StepIsProper(c, p, states, events, i);
      } else {
        OnlyCommandsMatter(c, p, states[i], events[i], answers[i]);
      }
    }
    RetriesAreConserved(c, p, states, events, |events|);
    if pin.inUse {
      var i, d := TokenInUseWasEarned(c, p, states, events, |events|);
    }
  }

  lemma StartOfRun(c: Crypto, p: Policy, s: State)
    requires LawfulCrypto(c) && Reset(s)
    ensures IsRun(c, p, [s], [])
  {
  }

  lemma OnlyCommandsMatter(c: Crypto, p: Policy, s: State, e: Event, r: Result<Response, Status>)
    requires !e.Command?
    ensures Proper(c, p, s, e, r)
  {
  }
}
