// What a PIN command that is granted has done, exactly when it is granted, and what a refused
// one says: the counterpart of PinSafety, which says what cannot happen.

module PinEffects {
  import opened Bytes
  import opened ClientPins
  import opened PinSafety
  import opened Results

  // ---------- the PIN that is stored ----------

  /** The text in a padded block: what comes before its first zero. */
  predicate TextOf(padded: ByteString, pin: ByteString) {
    pin <= padded && 0 !in pin && (|pin| < |padded| ==> padded[|pin|] == 0)
  }

  lemma {:induction false} BeforeZeroIsText(padded: ByteString)
    ensures TextOf(padded, BeforeZero(padded))
  {
    if padded != [] && padded[0] != 0 {
      BeforeZeroIsText(padded[1..]);
      assert padded == [padded[0]] + padded[1..];
    }
  }

  /** What goes on behind a text has a zero in it. */
  lemma BehindATextIsZero(padded: ByteString, a: ByteString, b: ByteString)
    requires TextOf(padded, a) && b <= padded
    ensures |a| < |b| ==> 0 in b
  {
    if |a| < |b| {
      assert b[|a|] == padded[|a|] == 0;
    }
  }

  lemma TextIsBeforeZero(padded: ByteString, pin: ByteString)
    ensures TextOf(padded, pin) <==> pin == BeforeZero(padded)
  {
    BeforeZeroIsText(padded);
    if TextOf(padded, pin) {
      BehindATextIsZero(padded, pin, BeforeZero(padded));
      BehindATextIsZero(padded, BeforeZero(padded), pin);
      assert pin == padded[..|pin|] && BeforeZero(padded) == padded[..|pin|];
    }
  }

  /** The command brings the PIN, padded to 64 bytes and encrypted under the agreed secret. */
  ghost predicate Carries(c: Crypto, s: State, q: Params, pin: ByteString) {
    && q.keyAgreement.Some? && q.newPinEnc.Some?
    && var secret := c.decapsulate(KeyOf(s, q.protocol), q.keyAgreement.value, q.protocol);
       secret.Ok?
       && var padded := secret.value.decrypt(q.newPinEnc.value);
          padded.Ok? && |padded.value| == 64 && TextOf(padded.value, pin)
  }

  /** The command is signed under the agreed secret. */
  predicate Signed(c: Crypto, s: State, q: Params, message: ByteString) {
    && q.keyAgreement.Some? && q.authParam.Some?
    && var secret := c.decapsulate(KeyOf(s, q.protocol), q.keyAgreement.value, q.protocol);
       secret.Ok? && secret.value.verify(message, q.authParam.value) == None
  }

  /** Long enough, and with room for a zero behind it. */
  predicate Acceptable(c: Crypto, p: Policy, s: State, pin: ByteString) {
    MinLength(p, s) <= c.codePoints(pin) && |pin| < 64
  }

  /** The stored PIN is this one. */
  predicate InForce(c: Crypto, t: State, pin: ByteString)
    requires LawfulCrypto(c)
  {
    t.pin == Some(StoredPin(c.hash(pin)[..16], c.codePoints(pin)))
  }

  lemma StoreIff(c: Crypto, p: Policy, s: State, secret: Secret, enc: ByteString, f: Faults, pin: ByteString)
    requires LawfulCrypto(c)
    ensures var (t, e) := StoreNewPin(c, p, s, secret, enc, f);
      var padded := secret.decrypt(enc);
      && (e.Some? ==> t == s)
      && (e == None ==> padded.Ok? && |padded.value| == 64)
      && (padded.Ok? && |padded.value| == 64 && TextOf(padded.value, pin) ==>
            && (e == None <==> Acceptable(c, p, s, pin) && !f.setPin)
            && (e == None ==> InForce(c, t, pin) && t == s.(pin := t.pin, forceChange := false)))
  {
    if secret.decrypt(enc).Ok? {
      TextIsBeforeZero(secret.decrypt(enc).value, pin);
      BeforeZeroIsShorter(secret.decrypt(enc).value);
    }
  }

  /**
   * Exactly when the PIN is changed: by who sends the stored PIN and an acceptable new one, both
   * signed, on a device that is not locked. Then the new PIN is in force, no change is due, the
   * retries are back and the tokens are new.
   */
  lemma ChangePinIff(c: Crypto, p: Policy, s: State, q: Params, f: Faults, draw: Fresh, pin: ByteString)
    requires LawfulCrypto(c) && Inv(p, s) && Carries(c, s, q, pin)
    ensures var (t, e) := OnChangePin(c, p, s, q, f, draw);
      && (e == None <==>
            && RightPin(c, s, q) && Signed(c, s, q, q.newPinEnc.value + q.pinHashEnc.value)
            && s.mismatches < 3 && Retries(p, s) > 0 && Acceptable(c, p, s, pin)
            && !f.decrRetries && !f.resetRetries && !f.setPin)
      && (e == None ==>
            && InForce(c, t, pin) && !t.forceChange && t.retries == None && t.mismatches == 0
            && Tokens(t) == (draw.tokenV1, draw.tokenV2))
  {
    hide VerifyPin, StoreNewPin, TextOf;
    var secret := c.decapsulate(KeyOf(s, q.protocol), q.keyAgreement.value, q.protocol).value;
    if q.pinHashEnc.Some? && Retries(p, s) > 0 {
      VerifiedIff(p, s, q.protocol, secret, q.pinHashEnc.value, f, draw);
      VerifiedPin(p, s, q.protocol, secret, q.pinHashEnc.value, f, draw);
      var t := VerifyPin(p, s, q.protocol, secret, q.pinHashEnc.value, f, draw).0;
      VerifyKeepsMinLength(p, s, q.protocol, secret, q.pinHashEnc.value, f, draw);
      StoreIff(c, p, t, secret, q.newPinEnc.value, f, pin);
    }
  }

  /** A change that is granted does carry a PIN. */
  lemma GrantedChangeCarries(c: Crypto, p: Policy, s: State, q: Params, f: Faults, draw: Fresh)
    returns (pin: ByteString)
    requires LawfulCrypto(c) && OnChangePin(c, p, s, q, f, draw).1 == None
    ensures Carries(c, s, q, pin)
  {
    hide VerifyPin, StoreNewPin, TextOf;
    var secret := c.decapsulate(KeyOf(s, q.protocol), q.keyAgreement.value, q.protocol).value;
    var padded := secret.decrypt(q.newPinEnc.value);
    var t := VerifyPin(p, s, q.protocol, secret, q.pinHashEnc.value, f, draw).0;
    StoreIff(c, p, t, secret, q.newPinEnc.value, f, []);
    pin := BeforeZero(padded.value);
    TextIsBeforeZero(padded.value, pin);
  }

  /**
   * Exactly when a first PIN is set. It may be stored although the command fails, when the
   * retries cannot be written; in any case what is stored is the PIN that was sent.
   */
  lemma SetPinIff(c: Crypto, p: Policy, s: State, q: Params, f: Faults, pin: ByteString)
    requires LawfulCrypto(c) && Carries(c, s, q, pin)
    ensures var (t, e) := OnSetPin(c, p, s, q, f);
      var stores := s.pin == None && Signed(c, s, q, q.newPinEnc.value) && Acceptable(c, p, s, pin) && !f.setPin;
      && (e == None <==> stores && !f.resetRetries)
      && (if stores then InForce(c, t, pin) && !t.forceChange else t == s)
      && (e == None ==> t.retries == None && t.attempts == 0)
  {
    hide StoreNewPin, TextOf;
    var secret := c.decapsulate(KeyOf(s, q.protocol), q.keyAgreement.value, q.protocol).value;
    StoreIff(c, p, s, secret, q.newPinEnc.value, f, pin);
  }

  /** With a PIN set, only a change by who knows it replaces it. */
  lemma PinStep(c: Crypto, p: Policy, s: State, e: Event)
    requires LawfulCrypto(c) && s.pin.Some?
    requires e.Command? && e.q.sub == ChangePin ==> !RightPin(c, s, e.q)
    ensures Next(c, p, s, e).pin == s.pin
  {
    hide OnSetPin, OnChangePin, OnGetPinToken, OnGetTokenUsingPin, OnConfig, RightPin;
    if e.Command? {
      SetPinUse(c, p, s, e.q, e.f);
      ChangePinUse(c, p, s, e.q, e.f, e.draw);
      GetTokenUse(c, p, s, e.q, e.f, e.draw);
      GetTokenUsingPinUse(c, p, s, e.q, e.f, e.draw);
    } else if e.Config? {
      ConfigLeavesThePin(c, p, s, e.cq, e.f);
    }
  }

  /** The command set or changed the PIN, and was answered with success. */
  ghost predicate GrantsPin(c: Crypto, p: Policy, s: State, e: Event, pin: ByteString)
    requires LawfulCrypto(c)
  {
    && e.Command? && e.q.sub in {SetPin, ChangePin} && Carries(c, s, e.q, pin)
    && OnCommand(c, p, s, e.q, e.f, e.draw).1.Ok?
  }

  lemma GrantedPinIsInForce(c: Crypto, p: Policy, s: State, e: Event, pin: ByteString)
    requires LawfulCrypto(c) && Inv(p, s) && GrantsPin(c, p, s, e, pin)
    ensures InForce(c, Next(c, p, s, e), pin) && !Next(c, p, s, e).forceChange
  {
    hide OnSetPin, OnChangePin, Carries, InForce, Inv;
    if e.q.sub == SetPin {
      SetPinIff(c, p, s, e.q, e.f, pin);
    } else {
      ChangePinIff(c, p, s, e.q, e.f, e.draw, pin);
    }
  }

  /**
   * In every run, the PIN that was granted is the one that counts: until someone who sends it
   * asks for a change, a request is right exactly when it carries the first 16 bytes of its hash.
   */
  lemma {:induction false} GrantedPinCounts(
    c: Crypto, p: Policy, states: seq<State>, events: seq<Event>, i: nat, j: nat, pin: ByteString)
    requires LawfulCrypto(c) && IsRun(c, p, states, events) && i < j < |states|
    requires GrantsPin(c, p, states[i], events[i], pin)
    requires forall k :: i < k < j && events[k].Command? && events[k].q.sub == ChangePin ==>
      !RightPin(c, states[k], events[k].q)
    ensures InForce(c, states[j], pin)
    ensures forall q :: RightPin(c, states[j], q) <==>
      && q.keyAgreement.Some? && q.pinHashEnc.Some?
      && var secret := c.decapsulate(KeyOf(states[j], q.protocol), q.keyAgreement.value, q.protocol);
         secret.Ok? && secret.value.decrypt(q.pinHashEnc.value) == Ok(c.hash(pin)[..16])
    decreases j
  {
    var s, e := states[j - 1], events[j - 1];
    if j == i + 1 {
      RunKeepsInv(c, p, states, events, i);
      hide Next, Inv, GrantsPin;
      GrantedPinIsInForce(c, p, s, e, pin);
    } else {
      GrantedPinCounts(c, p, states, events, i, j - 1, pin);
      hide Next, GrantsPin;
      PinStep(c, p, s, e);
    }
  }

  // ---------- the token that is handed out ----------

  function TokenFor(s: State, protocol: Protocol): ByteString { if protocol == V1 then s.tokenV1 else s.tokenV2 }

  /**
   * A token that is handed out is new, encrypted under the agreed secret, in use, and has the
   * permissions asked for, or the two default ones for no RP in particular.
   */
  lemma GrantedToken(c: Crypto, p: Policy, s: State, q: Params, f: Faults, draw: Fresh)
    requires LawfulCrypto(c)
    ensures var (t, r) := OnCommand(c, p, s, q, f, draw);
      r.Ok? && r.value.Token? ==>
        && t.inUse && Tokens(t) == (draw.tokenV1, draw.tokenV2)
        && q.keyAgreement.Some?
        && (var secret := c.decapsulate(KeyOf(s, q.protocol), q.keyAgreement.value, q.protocol);
            secret.Ok? && secret.value.encrypt(TokenFor(t, q.protocol)) == Ok(r.value.enc))
        && (q.sub == GetTokenUsingPin ==>
              q.permissions == Some(t.permissions) && t.permissionsRpId == q.permissionsRpId)
        && (q.sub != GetTokenUsingPin ==> q.sub == GetPinToken && t.permissions == 0x03 && t.permissionsRpId == None)
  {
    hide VerifyPin, OnSetPin, OnChangePin;
  }

  /** Who gets a token with permissions: whoever would get a plain one, and names an RP where one is needed. */
  lemma TokenUsingPinIff(c: Crypto, p: Policy, s: State, q: Params, f: Faults, draw: Fresh)
    requires Inv(p, s)
    ensures OnGetTokenUsingPin(c, p, s, q, f, draw).1.Ok? <==>
      && q.permissions.Some? && q.permissions.value != 0
      && (q.permissions.value & 0x03 != 0 ==> q.permissionsRpId.Some?)
      && RightPin(c, s, q) && GoodPin(p, s) && !f.decrRetries && !f.resetRetries
      && CanAnswer(c, s, q, draw)
  {
    hide OnGetPinToken, GoodPin;
    var plain := q.(permissions := None, permissionsRpId := None);
    TokenIff(c, p, s, plain, f, draw);
    SamePin(c, s, q, plain);
    assert q.keyAgreement.Some? ==> CanAnswer(c, s, plain, draw) == CanAnswer(c, s, q, draw);
    hide RightPin, CanAnswer;
  }

  // ---------- the guess that is refused ----------

  function OtherKeyOf(s: State, protocol: Protocol): nat { if protocol == V1 then s.keyV2 else s.keyV1 }

  /**
   * A wrong PIN costs a retry, renews the key agreement of its protocol and no other, and is
   * answered by what is left: no retries, no more guesses until power-off, or another try.
   */
  lemma WrongPinIsAnswered(
    p: Policy, s: State, protocol: Protocol, secret: Secret, enc: ByteString, f: Faults, draw: Fresh)
    requires s.pin.Some? && s.mismatches < 3 && Retries(p, s) > 0 && !f.decrRetries
    requires secret.decrypt(enc).Ok? && secret.decrypt(enc).value != s.pin.value.hash
    ensures var (t, e) := VerifyPin(p, s, protocol, secret, enc, f, draw);
      && Retries(p, t) == Retries(p, s) - 1 && t.attempts == s.attempts + 1
      && KeyOf(t, protocol) == draw.key && OtherKeyOf(t, protocol) == OtherKeyOf(s, protocol)
      && (e == Some(PinBlocked) <==> Retries(p, t) == 0)
      && (e == Some(PinAuthBlocked) <==> Retries(p, t) > 0 && t.mismatches == 3)
      && (e == Some(PinInvalid) <==> Retries(p, t) > 0 && t.mismatches < 3)
      && (Retries(p, t) > 0 ==> t.mismatches == s.mismatches + 1)
  {
  }

  /** The status queries: the retries left, whether only power-off helps, and the key to agree on. */
  lemma QueriesTellTheState(c: Crypto, p: Policy, s: State, q: Params, f: Faults, draw: Fresh)
    requires LawfulCrypto(c) && Inv(p, s) && (p.allowsV1 || q.protocol == V2)
    ensures q.sub == GetPinRetries ==>
      OnCommand(c, p, s, q, f, draw) == (s, Ok(PinRetries(p.maxRetries - s.attempts, s.mismatches == 3)))
    ensures q.sub == GetKeyAgreement ==>
      OnCommand(c, p, s, q, f, draw) == (s, Ok(KeyAgreement(if q.protocol == V1 then s.keyV1 else s.keyV2)))
  {
  }

  /** A command that lacks what it needs changes nothing and says so, whatever the state. */
  lemma MissingIsNamed(c: Crypto, p: Policy, s: State, q: Params, f: Faults, draw: Fresh)
    requires LawfulCrypto(c) && (p.allowsV1 || q.protocol == V2)
    requires
      || (q.sub in {SetPin, ChangePin, GetPinToken} && q.keyAgreement == None)
      || (q.sub in {SetPin, ChangePin} && (q.authParam == None || q.newPinEnc == None))
      || (q.sub in {ChangePin, GetPinToken} && q.pinHashEnc == None)
      || (q.sub == GetTokenUsingPin && q.permissions == None)
    ensures OnCommand(c, p, s, q, f, draw) == (s, Err(MissingParameter))
  {
  }

  /** A plain request for a token names no permissions and no RP. */
  predicate NamesTooMuch(q: Params) {
    q.keyAgreement.Some? && q.pinHashEnc.Some? && (q.permissions.Some? || q.permissionsRpId.Some?)
  }

  /** One with permissions names some, and an RP for the two that need it. */
  predicate NamesTooLittle(q: Params) {
    q.permissions.Some? &&
    (q.permissions.value == 0 || (q.permissions.value & 0x03 != 0 && q.permissionsRpId == None))
  }

  /** What else is refused without looking at a PIN, and by what name. */
  lemma RefusalsAreNamed(c: Crypto, p: Policy, s: State, q: Params, f: Faults, draw: Fresh)
    requires LawfulCrypto(c)
    ensures var (t, r) := OnCommand(c, p, s, q, f, draw);
      && (!p.allowsV1 && q.protocol == V1 ==> t == s && r == Err(InvalidParameter))
      && (p.allowsV1 || q.protocol == V2 ==>
            && (q.sub in {GetTokenUsingUv, GetUvRetries} ==> t == s && r == Err(InvalidSubcommand))
            && (q.sub == SetPin && q.keyAgreement.Some? && q.authParam.Some? && q.newPinEnc.Some? && s.pin.Some? ==>
                  t == s && r == Err(PinAuthInvalid))
            && (q.sub == GetPinToken && NamesTooMuch(q) ==> t == s && r == Err(InvalidParameter))
            && (q.sub == GetTokenUsingPin && NamesTooLittle(q) ==> t == s && r == Err(InvalidParameter)))
  {
    hide VerifyPin, StoreNewPin;
  }

  /** The request is complete, so that only the PIN and the state decide. */
  predicate Complete(c: Crypto, s: State, q: Params) {
    && q.keyAgreement.Some? && q.pinHashEnc.Some?
    && c.decapsulate(KeyOf(s, q.protocol), q.keyAgreement.value, q.protocol).Ok?
    && q.permissions == None && q.permissionsRpId == None
  }

  /** Why a complete request for a token is refused, for each reason there is. */
  lemma TokenRefusalsAreNamed(c: Crypto, p: Policy, s: State, q: Params, f: Faults, draw: Fresh)
    requires Inv(p, s) && Complete(c, s, q) && !f.decrRetries && !f.resetRetries
    ensures var (t, r) := OnGetPinToken(c, p, s, q, f, draw);
      && (Retries(p, s) == 0 ==> t == s && r == Err(PinBlocked))
      && (Retries(p, s) > 0 && s.pin == None ==> t == s && r == Err(PuatRequired))
      && (Retries(p, s) > 0 && s.pin.Some? && s.mismatches >= 3 ==> t == s && r == Err(PinAuthBlocked))
      && (Retries(p, s) > 0 && s.pin.Some? && s.mismatches < 3 && RightPin(c, s, q) && s.forceChange ==>
            r == Err(PinInvalid) && t.retries == None && SameUse(s, t))
  {
  }

  // ---------- configuration ----------

  /** The command is signed with the token in use, and that may configure. */
  predicate MayConfigure(c: Crypto, s: State, q: ConfigParams) {
    && q.authParam.Some? && q.protocol.Some? && s.inUse && s.permissions & 0x20 != 0
    && c.verifyToken(TokenFor(s, q.protocol.value), q.message, q.authParam.value, q.protocol.value) == None
  }

  /** Exactly when user verification is switched, and that it is nothing else that changes. */
  lemma ToggleIff(c: Crypto, p: Policy, s: State, q: ConfigParams, f: Faults)
    requires q.sub.ToggleAlwaysUv?
    ensures var (t, e) := OnConfig(c, p, s, q, f);
      && (e == None <==> (s.pin == None || MayConfigure(c, s, q)) && !p.enforceUv && !f.setAlwaysUv)
      && t == if e == None then s.(alwaysUv := !s.alwaysUv) else s
  {
  }

  /** The minimum asked for, or the one there is. */
  function Asked(p: Policy, s: State, q: MinLengthParams): nat {
    if q.newMinLength.Some? then q.newMinLength.value else MinLength(p, s)
  }

  /** A change of PIN is asked for, or the PIN there is has become too short. */
  predicate ChangeIsDue(p: Policy, s: State, q: MinLengthParams) {
    q.forceChange == Some(true) || (s.pin.Some? && s.pin.value.codePoints < Asked(p, s, q))
  }

  lemma MinLengthIff(p: Policy, s: State, q: MinLengthParams, f: Faults)
    ensures var (t, e) := OnSetMinLength(p, s, q, f);
      && (e == None <==>
            && MinLength(p, s) <= Asked(p, s, q) && (q.forceChange == Some(true) ==> s.pin.Some?)
            && (ChangeIsDue(p, s, q) ==> !f.forceChange) && !f.setMinLength
            && (q.rpIds.Some? ==> !f.setRpIds && |q.rpIds.value| <= p.maxRpIds))
      && (e == None ==>
            && MinLength(p, t) == Asked(p, s, q) && (t.forceChange <==> s.forceChange || ChangeIsDue(p, s, q))
            && t.rpIds == (if q.rpIds.Some? then q.rpIds.value else s.rpIds)
            && t == s.(minLength := t.minLength, forceChange := t.forceChange, rpIds := t.rpIds))
  {
  }

  /**
   * Exactly when the minimum length is set: it does not shrink, the writes go through, and a PIN
   * or required verification is answered by a token that may configure. Then it is the one asked
   * for, and a change of PIN is due if it was asked for or the PIN is now too short.
   */
  lemma SetMinLengthIff(c: Crypto, p: Policy, s: State, q: ConfigParams, f: Faults)
    requires q.sub.SetMinLength? && q.sub.params.Some?
    ensures var (t, e) := OnConfig(c, p, s, q, f); var params := q.sub.params.value;
      && (e == None <==>
            && ((s.pin == None && !p.enforceUv && !s.alwaysUv) || MayConfigure(c, s, q))
            && MinLength(p, s) <= Asked(p, s, params) && (params.forceChange == Some(true) ==> s.pin.Some?)
            && (ChangeIsDue(p, s, params) ==> !f.forceChange) && !f.setMinLength
            && (params.rpIds.Some? ==> !f.setRpIds && |params.rpIds.value| <= p.maxRpIds))
      && (e == None ==>
            && MinLength(p, t) == Asked(p, s, params)
            && (t.forceChange <==> s.forceChange || ChangeIsDue(p, s, params))
            && t.rpIds == (if params.rpIds.Some? then params.rpIds.value else s.rpIds))
  {
    hide OnSetMinLength, Asked, ChangeIsDue;
    MinLengthIff(p, s, q.sub.params.value, f);
  }
}
