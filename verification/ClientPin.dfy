// The PIN commands of src/ctap/client_pin.rs and the PIN policy command of
// src/ctap/config_command.rs, over the persistent entries of src/ctap/storage.rs.
// Cryptography is a parameter, and so is which store writes fail.

module ClientPins {
  import opened Bytes
  import opened Results

  datatype Status =
    | InvalidParameter | MissingParameter | InvalidSubcommand
    | PinInvalid | PinBlocked | PinAuthBlocked | PinAuthInvalid | PinPolicyViolation | PinNotSet
    | PuatRequired | OperationDenied | StoreError

  const PIN_AUTH_LENGTH: nat := 16
  const PIN_PADDED_LENGTH: nat := 64
  const CONFIGURATION: bv8 := 0x20

  datatype Protocol = V1 | V2

  /** The shared secret of a key agreement. */
  datatype Secret = Secret(
    decrypt: ByteString -> Result<ByteString, Status>,
    encrypt: ByteString -> Result<ByteString, Status>,
    verify: (ByteString, ByteString) -> Option<Status>)

  datatype Crypto = Crypto(
    decapsulate: (nat, ByteString, Protocol) -> Result<Secret, Status>,
    hash: ByteString -> ByteString,
    codePoints: ByteString -> nat,   // code points of the text the bytes encode, 0 if they encode none
    verifyToken: (ByteString, ByteString, ByteString, Protocol) -> Option<Status>)

  ghost predicate LawfulCrypto(c: Crypto) {
    && (forall b :: |c.hash(b)| >= PIN_AUTH_LENGTH)
    && (forall b :: c.codePoints(b) <= |b|)
  }

  /** The device's fixed policy. */
  datatype Policy = Policy(maxRetries: nat, defaultMinLength: nat, maxRpIds: nat, allowsV1: bool, enforceUv: bool)

  /** The store writes that fail during a command. */
  datatype Faults = Faults(
    decrRetries: bool, resetRetries: bool, setPin: bool, forceChange: bool, setMinLength: bool, setRpIds: bool,
    setAlwaysUv: bool)

  /** Random values a command draws. */
  datatype Fresh = Fresh(key: nat, tokenV1: ByteString, tokenV2: ByteString)

  datatype StoredPin = StoredPin(hash: ByteString, codePoints: nat)

  /** The persistent entries (absent ones stand for their defaults) and the volatile PIN state. */
  datatype State = State(
    pin: Option<StoredPin>, retries: Option<nat>, minLength: Option<nat>, forceChange: bool, alwaysUv: bool,
    rpIds: seq<string>,
    mismatches: nat, keyV1: nat, keyV2: nat, tokenV1: ByteString, tokenV2: ByteString,
    inUse: bool, permissions: bv8, permissionsRpId: Option<string>,
    attempts: nat)  // PIN comparisons since the retries were last reset

  function Retries(p: Policy, s: State): nat {
    match s.retries case Some(n) => n case None => p.maxRetries
  }

  function MinLength(p: Policy, s: State): nat {
    match s.minLength case Some(n) => n case None => p.defaultMinLength
  }

  datatype SubCommand =
    | GetPinRetries | GetKeyAgreement | SetPin | ChangePin | GetPinToken
    | GetTokenUsingUv | GetUvRetries | GetTokenUsingPin

  datatype Params = Params(
    sub: SubCommand, protocol: Protocol, keyAgreement: Option<ByteString>, authParam: Option<ByteString>,
    newPinEnc: Option<ByteString>, pinHashEnc: Option<ByteString>,
    permissions: Option<bv8>, permissionsRpId: Option<string>)

  datatype Response = NoData | PinRetries(left: nat, powerCycle: bool) | KeyAgreement(key: nat) | Token(enc: ByteString)

  // ---------- PIN text ----------

  function BeforeZero(bytes: ByteString): ByteString {
    if bytes == [] || bytes[0] == 0 then [] else [bytes[0]] + BeforeZero(bytes[1..])
  }

  function DecryptPin(secret: Secret, newPinEnc: ByteString): Result<ByteString, Status> {
    match secret.decrypt(newPinEnc)
    case Err(e) => Err(e)
    case Ok(padded) => if |padded| != PIN_PADDED_LENGTH then Err(InvalidParameter) else Ok(BeforeZero(padded))
  }

  /** Whatever pads a PIN after its first zero byte, the PIN is what comes before it. */
  lemma {:induction false} PaddingIsStripped(pin: ByteString, padding: ByteString)
    requires 0 !in pin && (padding == [] || padding[0] == 0)
    ensures BeforeZero(pin + padding) == pin
  {
    if pin == [] {
      assert pin + padding == padding;
    } else {
      assert (pin + padding)[1..] == pin[1..] + padding;
      assert pin[0] in pin;
      PaddingIsStripped(pin[1..], padding);
    }
  }

  lemma {:induction false} BeforeZeroIsShorter(bytes: ByteString)
    ensures |BeforeZero(bytes)| <= |bytes| && 0 !in BeforeZero(bytes)
  {
    if bytes != [] && bytes[0] != 0 {
      BeforeZeroIsShorter(bytes[1..]);
    }
  }

  // ---------- what each command does ----------

  function KeyOf(s: State, protocol: Protocol): nat { if protocol == V1 then s.keyV1 else s.keyV2 }

  function Regenerated(s: State, protocol: Protocol, key: nat): State {
    if protocol == V1 then s.(keyV1 := key) else s.(keyV2 := key)
  }

  function NewTokens(s: State, draw: Fresh): State {
    s.(tokenV1 := draw.tokenV1, tokenV2 := draw.tokenV2)
  }

  function Attempted(p: Policy, s: State): State {
    s.(retries := if Retries(p, s) == 0 then s.retries else Some(Retries(p, s) - 1), attempts := s.attempts + 1)
  }

  function RetriesReset(s: State): State { s.(retries := None, attempts := 0) }

  function VerifyPin(
    p: Policy, s: State, protocol: Protocol, secret: Secret, pinHashEnc: ByteString, f: Faults, draw: Fresh)
    : (State, Option<Status>)
  {
    if s.pin == None then (s, Some(PuatRequired))
    else if s.mismatches >= 3 then (s, Some(PinAuthBlocked))
    else if f.decrRetries && Retries(p, s) != 0 then (s, Some(StoreError))
    else
      var t := Attempted(p, s);
      match secret.decrypt(pinHashEnc)
      case Err(_) => (t, Some(PinInvalid))
      case Ok(hash) =>
        if hash != s.pin.value.hash then
          var u := Regenerated(t, protocol, draw.key);
          if Retries(p, u) == 0 then (u, Some(PinBlocked))
          else (u.(mismatches := u.mismatches + 1), Some(if u.mismatches + 1 >= 3 then PinAuthBlocked else PinInvalid))
        else if f.resetRetries then (t, Some(StoreError))
        else (RetriesReset(t).(mismatches := 0), None)
  }

  function StoreNewPin(c: Crypto, p: Policy, s: State, secret: Secret, newPinEnc: ByteString, f: Faults)
    : (State, Option<Status>)
    requires LawfulCrypto(c)
  {
    match DecryptPin(secret, newPinEnc)
    case Err(e) => (s, Some(e))
    case Ok(pin) =>
      if c.codePoints(pin) < MinLength(p, s) || |pin| == PIN_PADDED_LENGTH then (s, Some(PinPolicyViolation))
      else if f.setPin then (s, Some(StoreError))
      else (s.(pin := Some(StoredPin(c.hash(pin)[..PIN_AUTH_LENGTH], c.codePoints(pin))), forceChange := false), None)
  }

  function OnSetPin(c: Crypto, p: Policy, s: State, q: Params, f: Faults): (State, Option<Status>)
    requires LawfulCrypto(c)
  {
    if q.keyAgreement == None || q.authParam == None || q.newPinEnc == None then (s, Some(MissingParameter))
    else if s.pin != None then (s, Some(PinAuthInvalid))
    else
      match c.decapsulate(KeyOf(s, q.protocol), q.keyAgreement.value, q.protocol)
      case Err(e) => (s, Some(e))
      case Ok(secret) =>
        if secret.verify(q.newPinEnc.value, q.authParam.value).Some?
        then (s, secret.verify(q.newPinEnc.value, q.authParam.value))
        else
          var (t, e) := StoreNewPin(c, p, s, secret, q.newPinEnc.value, f);
          if e.Some? then (t, e)
          else if f.resetRetries then (t, Some(StoreError))
          else (RetriesReset(t), None)
  }

  function OnChangePin(c: Crypto, p: Policy, s: State, q: Params, f: Faults, draw: Fresh): (State, Option<Status>)
    requires LawfulCrypto(c)
  {
    if q.keyAgreement == None || q.authParam == None || q.newPinEnc == None || q.pinHashEnc == None
    then (s, Some(MissingParameter))
    else if Retries(p, s) == 0 then (s, Some(PinBlocked))
    else
      match c.decapsulate(KeyOf(s, q.protocol), q.keyAgreement.value, q.protocol)
      case Err(e) => (s, Some(e))
      case Ok(secret) =>
        var signed := q.newPinEnc.value + q.pinHashEnc.value;
        if secret.verify(signed, q.authParam.value).Some? then (s, secret.verify(signed, q.authParam.value))
        else
          var (t, e) := VerifyPin(p, s, q.protocol, secret, q.pinHashEnc.value, f, draw);
          if e.Some? then (t, e)
          else
            var (u, e2) := StoreNewPin(c, p, t, secret, q.newPinEnc.value, f);
            if e2.Some? then (u, e2) else (NewTokens(u, draw), None)
  }

  function OnGetPinToken(c: Crypto, p: Policy, s: State, q: Params, f: Faults, draw: Fresh)
    : (State, Result<Response, Status>)
  {
    if q.keyAgreement == None || q.pinHashEnc == None then (s, Err(MissingParameter))
    else if q.permissions != None || q.permissionsRpId != None then (s, Err(InvalidParameter))
    else if Retries(p, s) == 0 then (s, Err(PinBlocked))
    else
      match c.decapsulate(KeyOf(s, q.protocol), q.keyAgreement.value, q.protocol)
      case Err(e) => (s, Err(e))
      case Ok(secret) =>
        var (t, e) := VerifyPin(p, s, q.protocol, secret, q.pinHashEnc.value, f, draw);
        if e.Some? then (t, Err(e.value))
        else if t.forceChange then (t, Err(PinInvalid))
        else
          var u := NewTokens(t, draw).(inUse := true, permissions := 0x03, permissionsRpId := None);
          match secret.encrypt(if q.protocol == V1 then u.tokenV1 else u.tokenV2)
          case Err(e) => (u, Err(e))
          case Ok(enc) => (u, Ok(Token(enc)))
  }

  function OnGetTokenUsingPin(c: Crypto, p: Policy, s: State, q: Params, f: Faults, draw: Fresh)
    : (State, Result<Response, Status>)
  {
    if q.permissions == None then (s, Err(MissingParameter))
    else if q.permissions.value == 0 then (s, Err(InvalidParameter))
    else if q.permissions.value & 0x03 != 0 && q.permissionsRpId == None then (s, Err(InvalidParameter))
    else
      var (t, r) := OnGetPinToken(c, p, s, q.(permissions := None, permissionsRpId := None), f, draw);
      if r.Err? then (t, r)
      else (t.(permissions := q.permissions.value, permissionsRpId := q.permissionsRpId), r)
  }

  function Answered(x: (State, Option<Status>)): (State, Result<Response, Status>) {
    (x.0, if x.1.Some? then Err(x.1.value) else Ok(NoData))
  }

  function OnCommand(c: Crypto, p: Policy, s: State, q: Params, f: Faults, draw: Fresh)
    : (State, Result<Response, Status>)
    requires LawfulCrypto(c)
  {
    if !p.allowsV1 && q.protocol == V1 then (s, Err(InvalidParameter))
    else
      match q.sub
      case GetPinRetries => (s, Ok(PinRetries(Retries(p, s), s.mismatches >= 3)))
      case GetKeyAgreement => (s, Ok(KeyAgreement(KeyOf(s, q.protocol))))
      case SetPin => Answered(OnSetPin(c, p, s, q, f))
      case ChangePin => Answered(OnChangePin(c, p, s, q, f, draw))
      case GetPinToken => OnGetPinToken(c, p, s, q, f, draw)
      case GetTokenUsingUv => (s, Err(InvalidSubcommand))
      case GetUvRetries => (s, Err(InvalidSubcommand))
      case GetTokenUsingPin => OnGetTokenUsingPin(c, p, s, q, f, draw)
  }

  // ---------- authenticatorConfig ----------

  datatype MinLengthParams = MinLengthParams(
    newMinLength: Option<nat>, rpIds: Option<seq<string>>, forceChange: Option<bool>)

  datatype ConfigSub = ToggleAlwaysUv | SetMinLength(params: Option<MinLengthParams>) | Unsupported

  datatype ConfigParams = ConfigParams(
    sub: ConfigSub, message: ByteString, authParam: Option<ByteString>, protocol: Option<Protocol>)

  function OnSetMinLength(p: Policy, s: State, q: MinLengthParams, f: Faults): (State, Option<Status>) {
    var newMin := match q.newMinLength case Some(n) => n case None => MinLength(p, s);
    var asked := q.forceChange == Some(true);
    if newMin < MinLength(p, s) then (s, Some(PinPolicyViolation))
    else if asked && s.pin == None then (s, Some(PinNotSet))
    else
      var force := asked || (s.pin.Some? && newMin > s.pin.value.codePoints);
      if force && f.forceChange then (s, Some(StoreError))
      else
        var t := if force then s.(forceChange := true) else s;
        if f.setMinLength then (t, Some(StoreError))
        else
          var u := t.(minLength := Some(newMin));
          if q.rpIds == None then (u, None)
          else if f.setRpIds || |q.rpIds.value| > p.maxRpIds then (u, Some(StoreError))
          else (u.(rpIds := q.rpIds.value), None)
  }

  function AlwaysUv(p: Policy, s: State): bool { p.enforceUv || s.alwaysUv }

  /** The token check a configuration command has to pass once a PIN is set. */
  function ConfigGate(c: Crypto, p: Policy, s: State, q: ConfigParams): Option<Status> {
    if s.pin == None && (q.sub.ToggleAlwaysUv? || !AlwaysUv(p, s)) then None
    else if q.authParam == None then Some(PuatRequired)
    else if q.protocol == None then Some(MissingParameter)
    else if !s.inUse then Some(PinAuthInvalid)
    else
      var token := if q.protocol.value == V1 then s.tokenV1 else s.tokenV2;
      match c.verifyToken(token, q.message, q.authParam.value, q.protocol.value)
      case Some(e) => Some(e)
      case None => if s.permissions & CONFIGURATION == 0 then Some(PinAuthInvalid) else None
  }

  function OnConfig(c: Crypto, p: Policy, s: State, q: ConfigParams, f: Faults): (State, Option<Status>) {
    if ConfigGate(c, p, s, q).Some? then (s, ConfigGate(c, p, s, q))
    else
      match q.sub
      case ToggleAlwaysUv =>
        if p.enforceUv then (s, Some(OperationDenied))
        else if f.setAlwaysUv then (s, Some(StoreError))
        else (s.(alwaysUv := !s.alwaysUv), None)
      case SetMinLength(Some(params)) => OnSetMinLength(p, s, params, f)
      case SetMinLength(None) => (s, Some(MissingParameter))
      case Unsupported => (s, Some(InvalidParameter))
  }

  // ---------- the objects ----------

  /** The persistent entries. A write that fails changes nothing. */
  class Store {
    var pin: Option<StoredPin>
    var pinRetries: Option<nat>
    var minPinLength: Option<nat>
    var forcePinChange: bool
    var alwaysUv: bool
    var minLengthRpIds: seq<string>
    const policy: Policy

    constructor (policy: Policy)
      ensures this.policy == policy
      ensures pin == None && pinRetries == None && minPinLength == None
      ensures !forcePinChange && !alwaysUv && minLengthRpIds == []
    {
      this.policy := policy;
      pin, pinRetries, minPinLength := None, None, None;
      forcePinChange, alwaysUv, minLengthRpIds := false, false, [];
    }

    function Retries(): nat
      reads this
    {
      match pinRetries case Some(n) => n case None => policy.maxRetries
    }

    function MinLength(): nat
      reads this
    {
      match minPinLength case Some(n) => n case None => policy.defaultMinLength
    }

    /** Spend a retry; at zero there is nothing to write. */
    method DecrRetries(fails: bool) returns (ok: bool)
      modifies this`pinRetries
      ensures ok <==> !(fails && old(Retries()) != 0)
      ensures pinRetries == if ok && old(Retries()) != 0 then Some(old(Retries()) - 1) else old(pinRetries)
    {
      var before := Retries();
      var after := if before == 0 then 0 else before - 1;
      ok := true;
      if after != before {
        if fails {
          return false;
        }
        pinRetries := Some(after);
      }
    }
  }

  class ClientPin {
    const store: Store
    const crypto: Crypto
    var consecutivePinMismatches: nat
    var keyV1: nat
    var keyV2: nat
    var tokenV1: ByteString
    var tokenV2: ByteString
    var inUse: bool
    var permissionsSet: bv8
    var permissionsRpId: Option<string>
    ghost var attempts: nat

    ghost function View(): State
      reads this, store
    {
      State(store.pin, store.pinRetries, store.minPinLength, store.forcePinChange, store.alwaysUv,
        store.minLengthRpIds, consecutivePinMismatches, keyV1, keyV2, tokenV1, tokenV2, inUse, permissionsSet,
        permissionsRpId, attempts)
    }

    /** Power-on: the volatile state is new, the store is what it was. */
    constructor (store: Store, crypto: Crypto, draw: Fresh, otherKey: nat, ghost attempts: nat)
      ensures this.store == store && this.crypto == crypto
      ensures View() == State(store.pin, store.pinRetries, store.minPinLength, store.forcePinChange, store.alwaysUv,
        store.minLengthRpIds, 0, draw.key, otherKey, draw.tokenV1, draw.tokenV2, false, 0, None, attempts)
    {
      this.store := store;
      this.crypto := crypto;
      consecutivePinMismatches := 0;
      keyV1, keyV2, tokenV1, tokenV2 := draw.key, otherKey, draw.tokenV1, draw.tokenV2;
      inUse, permissionsSet, permissionsRpId := false, 0, None;
      this.attempts := attempts;
    }

    method VerifyPinHashEnc(protocol: Protocol, secret: Secret, pinHashEnc: ByteString, f: Faults, draw: Fresh)
      returns (error: Option<Status>)
      modifies this, store
      ensures (View(), error) == VerifyPin(store.policy, old(View()), protocol, secret, pinHashEnc, f, draw)
    {
      match store.pin {
        case None => return Some(PuatRequired);
        case Some(pin) =>
          if consecutivePinMismatches >= 3 {
            return Some(PinAuthBlocked);
          }
          var spent := store.DecrRetries(f.decrRetries);
          if !spent {
            return Some(StoreError);
          }
          attempts := attempts + 1;
          assert View() == Attempted(store.policy, old(View()));
          var decrypted := secret.decrypt(pinHashEnc);
          if decrypted.Err? {
            return Some(PinInvalid);
          }
          if decrypted.value != pin.hash {
            Regenerate(protocol, draw.key);
            if store.Retries() == 0 {
              return Some(PinBlocked);
            }
            consecutivePinMismatches := consecutivePinMismatches + 1;
            return Some(if consecutivePinMismatches >= 3 then PinAuthBlocked else PinInvalid);
          }
      }
      if f.resetRetries {
        return Some(StoreError);
      }
      store.pinRetries := None;
      attempts := 0;
      consecutivePinMismatches := 0;
      return None;
    }

    method Regenerate(protocol: Protocol, key: nat)
      modifies this`keyV1, this`keyV2
      ensures View() == Regenerated(old(View()), protocol, key)
    {
      if protocol == V1 {
        keyV1 := key;
      } else {
        keyV2 := key;
      }
    }

    method CheckAndStoreNewPin(secret: Secret, newPinEnc: ByteString, f: Faults) returns (error: Option<Status>)
      requires LawfulCrypto(crypto)
      modifies store
      ensures (View(), error) == StoreNewPin(crypto, store.policy, old(View()), secret, newPinEnc, f)
    {
      var decrypted := DecryptPin(secret, newPinEnc);
      if decrypted.Err? {
        return Some(decrypted.error);
      }
      var pin := decrypted.value;
      var length := crypto.codePoints(pin);
      if length < store.MinLength() || |pin| == PIN_PADDED_LENGTH {
        return Some(PinPolicyViolation);
      }
      if f.setPin {
        return Some(StoreError);
      }
      // one transaction: the PIN is replaced and the forced change is lifted together
      store.pin := Some(StoredPin(crypto.hash(pin)[..PIN_AUTH_LENGTH], length));
      store.forcePinChange := false;
      return None;
    }

    method ProcessSetPin(q: Params, f: Faults) returns (error: Option<Status>)
      requires LawfulCrypto(crypto)
      modifies this, store
      ensures (View(), error) == OnSetPin(crypto, store.policy, old(View()), q, f)
    {
      if q.keyAgreement == None || q.authParam == None || q.newPinEnc == None {
        return Some(MissingParameter);
      }
      if store.pin.Some? {
        return Some(PinAuthInvalid);
      }
      var secret := crypto.decapsulate(if q.protocol == V1 then keyV1 else keyV2, q.keyAgreement.value, q.protocol);
      if secret.Err? {
        return Some(secret.error);
      }
      error := secret.value.verify(q.newPinEnc.value, q.authParam.value);
      if error.Some? {
        return;
      }
      error := CheckAndStoreNewPin(secret.value, q.newPinEnc.value, f);
      if error.Some? {
        return;
      }
      if f.resetRetries {
        return Some(StoreError);
      }
      store.pinRetries := None;
      attempts := 0;
    }

    method ProcessChangePin(q: Params, f: Faults, draw: Fresh) returns (error: Option<Status>)
      requires LawfulCrypto(crypto)
      modifies this, store
      ensures (View(), error) == OnChangePin(crypto, store.policy, old(View()), q, f, draw)
    {
      if q.keyAgreement == None || q.authParam == None || q.newPinEnc == None || q.pinHashEnc == None {
        return Some(MissingParameter);
      }
      if store.Retries() == 0 {
        return Some(PinBlocked);
      }
      var secret := crypto.decapsulate(if q.protocol == V1 then keyV1 else keyV2, q.keyAgreement.value, q.protocol);
      if secret.Err? {
        return Some(secret.error);
      }
      error := secret.value.verify(q.newPinEnc.value + q.pinHashEnc.value, q.authParam.value);
      if error.Some? {
        return;
      }
      hide VerifyPin, StoreNewPin;
      error := VerifyPinHashEnc(q.protocol, secret.value, q.pinHashEnc.value, f, draw);
      if error.Some? {
        return;
      }
      error := CheckAndStoreNewPin(secret.value, q.newPinEnc.value, f);
      if error.Some? {
        return;
      }
      tokenV1, tokenV2 := draw.tokenV1, draw.tokenV2;
    }

    method ProcessGetPinToken(q: Params, f: Faults, draw: Fresh) returns (r: Result<Response, Status>)
      modifies this, store
      ensures (View(), r) == OnGetPinToken(crypto, store.policy, old(View()), q, f, draw)
    {
      if q.keyAgreement == None || q.pinHashEnc == None {
        return Err(MissingParameter);
      }
      if q.permissions.Some? || q.permissionsRpId.Some? {
        return Err(InvalidParameter);
      }
      if store.Retries() == 0 {
        return Err(PinBlocked);
      }
      var secret := crypto.decapsulate(if q.protocol == V1 then keyV1 else keyV2, q.keyAgreement.value, q.protocol);
      if secret.Err? {
        return Err(secret.error);
      }
      hide VerifyPin;
      var error := VerifyPinHashEnc(q.protocol, secret.value, q.pinHashEnc.value, f, draw);
      if error.Some? {
        return Err(error.value);
      }
      if store.forcePinChange {
        return Err(PinInvalid);
      }
      tokenV1, tokenV2 := draw.tokenV1, draw.tokenV2;
      inUse := true;
      permissionsSet := 0x03;
      permissionsRpId := None;
      var enc := secret.value.encrypt(if q.protocol == V1 then tokenV1 else tokenV2);
      match enc
      case Err(e) => return Err(e);
      case Ok(token) => return Ok(Token(token));
    }

    method ProcessGetTokenUsingPin(q: Params, f: Faults, draw: Fresh) returns (r: Result<Response, Status>)
      modifies this, store
      ensures (View(), r) == OnGetTokenUsingPin(crypto, store.policy, old(View()), q, f, draw)
    {
      if q.permissions == None {
        return Err(MissingParameter);
      }
      var permissions := q.permissions.value;
      if permissions == 0 {
        return Err(InvalidParameter);
      }
      if permissions & 0x03 != 0 && q.permissionsRpId == None {
        return Err(InvalidParameter);
      }
      r := ProcessGetPinToken(q.(permissions := None, permissionsRpId := None), f, draw);
      if r.Ok? {
        permissionsSet := permissions;
        permissionsRpId := q.permissionsRpId;
      }
    }

    method ProcessCommand(q: Params, f: Faults, draw: Fresh) returns (r: Result<Response, Status>)
      requires LawfulCrypto(crypto)
      modifies this, store
      ensures (View(), r) == OnCommand(crypto, store.policy, old(View()), q, f, draw)
    {
      if !store.policy.allowsV1 && q.protocol == V1 {
        return Err(InvalidParameter);
      }
      match q.sub {
        case GetPinRetries => r := Ok(PinRetries(store.Retries(), consecutivePinMismatches >= 3));
        case GetKeyAgreement => r := Ok(KeyAgreement(if q.protocol == V1 then keyV1 else keyV2));
        case SetPin =>
          var error := ProcessSetPin(q, f);
          r := if error.Some? then Err(error.value) else Ok(NoData);
        case ChangePin =>
          var error := ProcessChangePin(q, f, draw);
          r := if error.Some? then Err(error.value) else Ok(NoData);
        case GetPinToken => r := ProcessGetPinToken(q, f, draw);
        case GetTokenUsingUv => r := Err(InvalidSubcommand);
        case GetUvRetries => r := Err(InvalidSubcommand);
        case GetTokenUsingPin => r := ProcessGetTokenUsingPin(q, f, draw);
      }
    }

    /** process_set_min_pin_length: the forced change is written before the new minimum. */
    method ProcessSetMinPinLength(q: MinLengthParams, f: Faults) returns (error: Option<Status>)
      modifies store
      ensures (View(), error) == OnSetMinLength(store.policy, old(View()), q, f)
    {
      var storeMin := store.MinLength();
      var newMin := match q.newMinLength case Some(n) => n case None => storeMin;
      if newMin < storeMin {
        return Some(PinPolicyViolation);
      }
      var forceChange := q.forceChange == Some(true);
      if forceChange && store.pin == None {
        return Some(PinNotSet);
      }
      if store.pin.Some? {
        forceChange := forceChange || newMin > store.pin.value.codePoints;
      }
      if forceChange {
        if f.forceChange {
          return Some(StoreError);
        }
        store.forcePinChange := true;
      }
      if f.setMinLength {
        return Some(StoreError);
      }
      store.minPinLength := Some(newMin);
      if q.rpIds.Some? {
        if f.setRpIds || |q.rpIds.value| > store.policy.maxRpIds {
          return Some(StoreError);
        }
        store.minLengthRpIds := q.rpIds.value;
      }
      return None;
    }

    /** The token's time is up. */
    method StopUsingToken()
      modifies this
      ensures View() == old(View()).(inUse := false, permissions := 0, permissionsRpId := None)
    {
      inUse, permissionsSet, permissionsRpId := false, 0, None;
    }

    method VerifyPinUvAuthToken(message: ByteString, authParam: ByteString, protocol: Protocol)
      returns (error: Option<Status>)
      ensures error == if !inUse then Some(PinAuthInvalid)
        else crypto.verifyToken(if protocol == V1 then tokenV1 else tokenV2, message, authParam, protocol)
    {
      if !inUse {
        return Some(PinAuthInvalid);
      }
      return crypto.verifyToken(if protocol == V1 then tokenV1 else tokenV2, message, authParam, protocol);
    }

    method ProcessConfig(q: ConfigParams, f: Faults) returns (error: Option<Status>)
      modifies store
      ensures (View(), error) == OnConfig(crypto, store.policy, old(View()), q, f)
    {
      var enforceUv := !q.sub.ToggleAlwaysUv? && (store.policy.enforceUv || store.alwaysUv);
      if store.pin.Some? || enforceUv {
        if q.authParam == None {
          return Some(PuatRequired);
        }
        if q.protocol == None {
          return Some(MissingParameter);
        }
        error := VerifyPinUvAuthToken(q.message, q.authParam.value, q.protocol.value);
        if error.Some? {
          return;
        }
        if permissionsSet & CONFIGURATION == 0 {
          return Some(PinAuthInvalid);
        }
      }
      match q.sub {
        case ToggleAlwaysUv =>
          if store.policy.enforceUv {
            return Some(OperationDenied);
          }
          if f.setAlwaysUv {
            return Some(StoreError);
          }
          store.alwaysUv := !store.alwaysUv;
          return None;
        case SetMinLength(params) =>
          if params == None {
            return Some(MissingParameter);
          }
          error := ProcessSetMinPinLength(params.value, f);
        case Unsupported => return Some(InvalidParameter);
      }
    }
  }
}
