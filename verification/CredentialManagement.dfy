// Enumerating relying parties and credentials: src/ctap/credential_management.rs, with the
// state held between calls (StatefulPermission, src/ctap/mod.rs).

module CredentialManagement {
  import opened Bytes
  import opened Results
  import opened TextOrder

  datatype Status = NotAllowed | NoCredentials | MissingParameter | InternalError | Denied

  const STATEFUL_COMMAND_TIMEOUT: nat := 30000

  datatype Credential = Credential(rpId: string, id: ByteString)

  /** The stored credentials with their keys, in the order the store lists them. */
  type CredentialStore = seq<(nat, Credential)>

  datatype StatefulCommand =
    | ResetCommand | GetAssertion | EnumerateRps(next: nat) | EnumerateCredentials(keys: seq<nat>)

  /** What is held between calls: until when, what, and for which channel. */
  datatype Held = Held(until: Option<nat>, command: Option<StatefulCommand>, channel: Option<nat>)

  datatype SubCommand =
    | RpsBegin | RpsNext | CredentialsBegin(rpIdHash: Option<ByteString>) | CredentialsNext
    | GetCredsMetadata | DeleteCredential | UpdateUserInformation

  datatype Response =
    | Rp(rpId: string, totalRps: Option<nat>)
    | Found(credential: Credential, totalCredentials: Option<nat>)
    | Done

  /** A call: the subcommand, what the token checks said, the channel and the time. */
  datatype Call = Call(sub: SubCommand, denied: bool, channel: nat, now: nat)

  // ---------- the RPs of a store ----------

  function InsertRp(rp: string, rps: seq<string>): seq<string> {
    if rps == [] then [rp]
    else
      match CmpText(rp, rps[0])
      case Less => [rp] + rps
      case Equal => rps
      case Greater => [rps[0]] + InsertRp(rp, rps[1..])
  }

  /** The set of stored RP IDs in ascending order. */
  function StoredRpIds(store: CredentialStore): seq<string> {
    if store == [] then [] else InsertRp(store[|store| - 1].1.rpId, StoredRpIds(store[..|store| - 1]))
  }

  ghost predicate StrictlyAscending(rps: seq<string>) {
    forall i, j :: 0 <= i < j < |rps| ==> CmpText(rps[i], rps[j]) == Less
  }

  lemma AscendingFrom(first: string, rest: seq<string>)
    requires StrictlyAscending(rest) && forall x :: x in rest ==> CmpText(first, x) == Less
    ensures StrictlyAscending([first] + rest)
  {
    hide CmpText;
  }

  lemma BelowAll(rp: string, rps: seq<string>)
    requires StrictlyAscending(rps) && rps != [] && CmpText(rp, rps[0]) == Less
    ensures forall x :: x in rps ==> CmpText(rp, x) == Less
  {
    forall j | 0 <= j < |rps| ensures CmpText(rp, rps[j]) == Less {
      if j > 0 {
        CmpTextTransitive(rp, rps[0], rps[j]);
        CmpTextEqual(rps[0], rps[j]);
      }
    }
    hide CmpText;
  }

  lemma {:induction false} InsertRpIs(rp: string, rps: seq<string>)
    requires StrictlyAscending(rps)
    ensures StrictlyAscending(InsertRp(rp, rps))
    ensures forall x :: x in InsertRp(rp, rps) <==> x == rp || x in rps
  {
    if rps == [] {
      assert InsertRp(rp, rps) == [rp];
    } else {
      CmpTextEqual(rp, rps[0]);
      CmpTextFlips(rp, rps[0]);
      assert rps == [rps[0]] + rps[1..];
      hide CmpText;
      if CmpText(rp, rps[0]) == Less {
        BelowAll(rp, rps);
        AscendingFrom(rp, rps);
      } else if CmpText(rp, rps[0]) == Greater {
        InsertRpIs(rp, rps[1..]);
        AscendingFrom(rps[0], InsertRp(rp, rps[1..]));
      }
    }
  }

  /** The RP list holds every stored RP exactly once. */
  lemma {:induction false} StoredRpIdsAre(store: CredentialStore)
    ensures StrictlyAscending(StoredRpIds(store))
    ensures forall rp :: rp in StoredRpIds(store) <==> exists c :: c in store && c.1.rpId == rp
    ensures forall i, j :: 0 <= i < j < |StoredRpIds(store)| ==> StoredRpIds(store)[i] != StoredRpIds(store)[j]
  {
    if store != [] {
      var front, last := store[..|store| - 1], store[|store| - 1];
      StoredRpIdsAre(front);
      InsertRpIs(last.1.rpId, StoredRpIds(front));
      assert store == front + [last];
      assert last in store;
    }
    forall i, j | 0 <= i < j < |StoredRpIds(store)| ensures StoredRpIds(store)[i] != StoredRpIds(store)[j] {
      CmpTextEqual(StoredRpIds(store)[i], StoredRpIds(store)[j]);
    }
  }

  method GetStoredRpIds(store: CredentialStore) returns (rps: seq<string>)
    ensures rps == StoredRpIds(store)
  {
    rps := [];
    for i := 0 to |store|
      invariant rps == StoredRpIds(store[..i])
    {
      assert store[..i + 1][..i] == store[..i];
      rps := InsertRp(store[i].1.rpId, rps);
    }
    assert store[..|store|] == store;
  }

  // ---------- the credentials of an RP ----------

  function KeysOf(store: CredentialStore, rpIdHash: ByteString, hash: string -> ByteString): seq<nat> {
    if store == [] then []
    else
      KeysOf(store[..|store| - 1], rpIdHash, hash)
      + if hash(store[|store| - 1].1.rpId) == rpIdHash then [store[|store| - 1].0] else []
  }

  ghost predicate DistinctKeys(store: CredentialStore) {
    forall i, j :: 0 <= i < j < |store| ==> store[i].0 != store[j].0
  }

  /** The store has a credential of the RP under the key. */
  ghost predicate HoldsKey(store: CredentialStore, rpIdHash: ByteString, hash: string -> ByteString, key: nat) {
    exists c :: c in store && c.0 == key && hash(c.1.rpId) == rpIdHash
  }

  lemma HoldsKeyLast(store: CredentialStore, rpIdHash: ByteString, hash: string -> ByteString, key: nat)
    requires store != []
    ensures HoldsKey(store, rpIdHash, hash, key) <==>
      || HoldsKey(store[..|store| - 1], rpIdHash, hash, key)
      || (key == store[|store| - 1].0 && hash(store[|store| - 1].1.rpId) == rpIdHash)
  {
    var front, last := store[..|store| - 1], store[|store| - 1];
    assert store == front + [last];
    if HoldsKey(front, rpIdHash, hash, key) {
      var c :| c in front && c.0 == key && hash(c.1.rpId) == rpIdHash;
      assert c in store;
    }
    assert last in store;
  }

  lemma LastKeyIsNew(store: CredentialStore, rpIdHash: ByteString, hash: string -> ByteString)
    requires store != [] && DistinctKeys(store)
    ensures !HoldsKey(store[..|store| - 1], rpIdHash, hash, store[|store| - 1].0)
  {
    var front := store[..|store| - 1];
    forall c | c in front ensures c.0 != store[|store| - 1].0 {
      var i :| 0 <= i < |front| && front[i] == c;
      assert store[i] == c;
    }
  }

  /** The keys of an RP are exactly the keys of its credentials, each once. */
  lemma {:induction false} KeysOfAre(store: CredentialStore, rpIdHash: ByteString, hash: string -> ByteString)
    requires DistinctKeys(store)
    ensures forall k :: k in KeysOf(store, rpIdHash, hash) <==> HoldsKey(store, rpIdHash, hash, k)
    ensures forall i, j :: 0 <= i < j < |KeysOf(store, rpIdHash, hash)| ==>
      KeysOf(store, rpIdHash, hash)[i] != KeysOf(store, rpIdHash, hash)[j]
  {
    if store != [] {
      var front := store[..|store| - 1];
      KeysOfAre(front, rpIdHash, hash);
      LastKeyIsNew(store, rpIdHash, hash);
      forall k ensures k in KeysOf(store, rpIdHash, hash) <==> HoldsKey(store, rpIdHash, hash, k) {
        HoldsKeyLast(store, rpIdHash, hash, k);
      }
      var keys := KeysOf(front, rpIdHash, hash);
      assert forall i :: 0 <= i < |keys| ==> keys[i] in keys;
    }
  }

  /** The keys come in the order the store lists their credentials. */
  lemma {:induction false} KeysKeepTheOrder(
    store: CredentialStore, rpIdHash: ByteString, hash: string -> ByteString, x: nat, y: nat) returns (i: nat, j: nat)
    requires DistinctKeys(store) && x < y < |store|
    requires hash(store[x].1.rpId) == hash(store[y].1.rpId) == rpIdHash
    ensures var keys := KeysOf(store, rpIdHash, hash);
      i < j < |keys| && keys[i] == store[x].0 && keys[j] == store[y].0
    decreases |store|
  {
    var front := store[..|store| - 1];
    assert front[x] == store[x] && DistinctKeys(front);
    if y == |store| - 1 {
      assert front[x] in front && HoldsKey(front, rpIdHash, hash, store[x].0);
      KeysOfAre(front, rpIdHash, hash);
      i :| 0 <= i < |KeysOf(front, rpIdHash, hash)| && KeysOf(front, rpIdHash, hash)[i] == store[x].0;
      j := |KeysOf(front, rpIdHash, hash)|;
    } else {
      assert front[y] == store[y];
      i, j := KeysKeepTheOrder(front, rpIdHash, hash, x, y);
    }
  }

  function GetCredential(store: CredentialStore, key: nat): Option<Credential> {
    if store == [] then None else if store[0].0 == key then Some(store[0].1) else GetCredential(store[1..], key)
  }

  lemma {:induction false} GetCredentialFinds(store: CredentialStore, i: nat)
    requires DistinctKeys(store) && i < |store|
    ensures GetCredential(store, store[i].0) == Some(store[i].1)
  {
    if i > 0 {
      GetCredentialFinds(store[1..], i - 1);
    }
  }

  // ---------- what a call does ----------

  const CLEARED := Held(None, None, None)

  predicate Granted(h: Held, now: nat) { h.until.Some? && now <= h.until.value }

  /** What process_parsed_command drops before any command is looked at. */
  function Admitted(h: Held, channel: nat, now: nat): Held {
    var h1 := if h.channel.Some? && h.channel.value != channel then CLEARED else h;
    if Granted(h1, now) then h1 else CLEARED
  }

  /** The one call that goes on with what is held; any other management call drops it. */
  predicate Continues(h: Held, sub: SubCommand) {
    h.command.Some? &&
    ((sub.RpsNext? && h.command.value.EnumerateRps?) || (sub.CredentialsNext? && h.command.value.EnumerateCredentials?))
  }

  function SetCommand(command: StatefulCommand, call: Call): Held {
    Held(Some(call.now + STATEFUL_COMMAND_TIMEOUT), Some(command), Some(call.channel))
  }

  function OnRpsBegin(store: CredentialStore, h: Held, call: Call): (Held, Result<Response, Status>) {
    var rps := StoredRpIds(store);
    (if |rps| > 1 then SetCommand(EnumerateRps(1), call) else h,
     if rps == [] then Err(NoCredentials) else Ok(Rp(rps[0], Some(|rps|))))
  }

  function OnRpsNext(store: CredentialStore, h: Held): (Held, Result<Response, Status>) {
    match h.command
    case Some(EnumerateRps(i)) =>
      var rps := StoredRpIds(store);
      (h.(command := Some(EnumerateRps(i + 1))), if i < |rps| then Ok(Rp(rps[i], None)) else Err(NotAllowed))
    case _ => (h, Err(NotAllowed))
  }

  function Fetched(store: CredentialStore, key: nat, total: Option<nat>): Result<Response, Status> {
    match GetCredential(store, key)
    case Some(c) => Ok(Found(c, total))
    case None => Err(InternalError)
  }

  function OnCredentialsBegin(
    store: CredentialStore, h: Held, call: Call, rpIdHash: ByteString, hash: string -> ByteString)
    : (Held, Result<Response, Status>)
  {
    var keys := KeysOf(store, rpIdHash, hash);
    if keys == [] then (h, Err(NoCredentials))
    else
      var last := |keys| - 1;
      var r := Fetched(store, keys[last], Some(|keys|));
      (if r.Ok? && |keys| > 1 then SetCommand(EnumerateCredentials(keys[..last]), call) else h, r)
  }

  function OnCredentialsNext(store: CredentialStore, h: Held): (Held, Result<Response, Status>) {
    match h.command
    case Some(EnumerateCredentials(keys)) =>
      if keys == [] then (h, Err(NotAllowed))
      else
        (h.(command := Some(EnumerateCredentials(keys[..|keys| - 1]))), Fetched(store, keys[|keys| - 1], None))
    case _ => (h, Err(NotAllowed))
  }

  function OnCall(store: CredentialStore, h: Held, call: Call, hash: string -> ByteString)
    : (Held, Result<Response, Status>)
  {
    var admitted := Admitted(h, call.channel, call.now);
    var k := if Continues(admitted, call.sub) then admitted else CLEARED;
    match call.sub
    case RpsNext => OnRpsNext(store, k)
    case CredentialsNext => OnCredentialsNext(store, k)
    case RpsBegin => if call.denied then (k, Err(Denied)) else OnRpsBegin(store, k, call)
    case CredentialsBegin(rpIdHash) =>
      if call.denied then (k, Err(Denied))
      else if rpIdHash == None then (k, Err(MissingParameter))
      else OnCredentialsBegin(store, k, call, rpIdHash.value, hash)
    case _ => (k, if call.denied then Err(Denied) else Ok(Done))
  }

  /** A call refused for its token or its parameter holds on to nothing; the plain ones hold on to nothing either. */
  lemma OtherAnswers(store: CredentialStore, h: Held, call: Call, hash: string -> ByteString)
    requires !call.sub.RpsNext? && !call.sub.CredentialsNext?
    ensures call.denied ==> OnCall(store, h, call, hash) == (CLEARED, Err(Denied))
    ensures !call.denied && call.sub == CredentialsBegin(None) ==>
      OnCall(store, h, call, hash) == (CLEARED, Err(MissingParameter))
    ensures !call.denied && call.sub in {GetCredsMetadata, DeleteCredential, UpdateUserInformation} ==>
      OnCall(store, h, call, hash) == (CLEARED, Ok(Done))
  {
  }

  // ---------- the object that holds the state ----------

  class StatefulPermission {
    var until: Option<nat>
    var commandType: Option<StatefulCommand>
    var channel: Option<nat>

    ghost function View(): Held
      reads this
    {
      Held(until, commandType, channel)
    }

    constructor (now: nat, resetTimeout: nat)
      ensures View() == Held(Some(now + resetTimeout), Some(ResetCommand), None)
    {
      until, commandType, channel := Some(now + resetTimeout), Some(ResetCommand), None;
    }

    method Clear()
      modifies this
      ensures View() == CLEARED
    {
      until, commandType, channel := None, None, None;
    }

    method Admit(from: nat, now: nat)
      modifies this
      ensures View() == Admitted(old(View()), from, now)
    {
      if channel.Some? && channel.value != from {
        Clear();
      }
      if !(until.Some? && now <= until.value) {
        Clear();
      }
    }

    method Set(command: StatefulCommand, call: Call)
      modifies this
      ensures View() == SetCommand(command, call)
    {
      until := Some(call.now + STATEFUL_COMMAND_TIMEOUT);
      commandType := Some(command);
      channel := Some(call.channel);
    }

    method NextEnumerateRp() returns (index: Option<nat>)
      modifies this`commandType
      ensures (View(), index) == match old(commandType)
        case Some(EnumerateRps(i)) => (old(View()).(command := Some(EnumerateRps(i + 1))), Some(i))
        case _ => (old(View()), None)
    {
      match commandType
      case Some(EnumerateRps(i)) =>
        commandType := Some(EnumerateRps(i + 1));
        index := Some(i);
      case _ => index := None;
    }

    method NextEnumerateCredential() returns (key: Option<nat>)
      modifies this`commandType
      ensures key == match old(commandType)
        case Some(EnumerateCredentials(keys)) => if keys == [] then None else Some(keys[|keys| - 1])
        case _ => None
      ensures View() == if key == None then old(View()) else
        old(View()).(command := Some(EnumerateCredentials(
          old(commandType).value.keys[..|old(commandType).value.keys| - 1])))
    {
      key := None;
      match commandType
      case Some(EnumerateCredentials(keys)) =>
        if keys != [] {
          key := Some(keys[|keys| - 1]);
          commandType := Some(EnumerateCredentials(keys[..|keys| - 1]));
        }
      case _ =>
    }
  }

  method ProcessCredentialManagement(
    store: CredentialStore, held: StatefulPermission, call: Call, hash: string -> ByteString)
    returns (r: Result<Response, Status>)
    modifies held
    ensures (held.View(), r) == OnCall(store, old(held.View()), call, hash)
  {
    held.Admit(call.channel, call.now);
    match (call.sub, held.commandType) {
      case (RpsNext, Some(EnumerateRps(_))) =>
      case (CredentialsNext, Some(EnumerateCredentials(_))) =>
      case _ => held.Clear();
    }
    if !call.sub.RpsNext? && !call.sub.CredentialsNext? && call.denied {
      return Err(Denied);
    }
    match call.sub {
      case RpsBegin =>
        var rps := GetStoredRpIds(store);
        if |rps| > 1 {
          held.Set(EnumerateRps(1), call);
        }
        r := if rps == [] then Err(NoCredentials) else Ok(Rp(rps[0], Some(|rps|)));
      case RpsNext =>
        var index := held.NextEnumerateRp();
        if index == None {
          return Err(NotAllowed);
        }
        var rps := GetStoredRpIds(store);
        r := if index.value < |rps| then Ok(Rp(rps[index.value], None)) else Err(NotAllowed);
      case CredentialsBegin(rpIdHash) =>
        if rpIdHash == None {
          return Err(MissingParameter);
        }
        var keys := KeysOf(store, rpIdHash.value, hash);
        if keys == [] {
          return Err(NoCredentials);
        }
        var current, rest := keys[|keys| - 1], keys[..|keys| - 1];
        r := Fetched(store, current, Some(|keys|));
        if r.Ok? && |keys| > 1 {
          held.Set(EnumerateCredentials(rest), call);
        }
      case CredentialsNext =>
        var key := held.NextEnumerateCredential();
        if key == None {
          return Err(NotAllowed);
        }
        r := Fetched(store, key.value, None);
      case _ => r := Ok(Done);
    }
  }

  // ---------- whole enumerations ----------

  /** The answers to a sequence of calls on one store, and what is held after them. */
  function Answers(store: CredentialStore, h: Held, calls: seq<Call>, hash: string -> ByteString)
    : (Held, seq<Result<Response, Status>>)
  {
    if calls == [] then (h, [])
    else
      var (k, rs) := Answers(store, h, calls[..|calls| - 1], hash);
      var (k', r) := OnCall(store, k, calls[|calls| - 1], hash);
      (k', rs + [r])
  }

  /** A begin and then only the matching next, on one channel and within the time limit. */
  ghost predicate Enumeration(calls: seq<Call>, begin: SubCommand, next: SubCommand) {
    && calls != [] && calls[0].sub == begin && !calls[0].denied
    && forall i :: 0 < i < |calls| ==>
         && calls[i].sub == next && calls[i].channel == calls[0].channel
         && calls[i].now <= calls[0].now + 30_000
  }

  lemma EnumerationFront(calls: seq<Call>, begin: SubCommand, next: SubCommand)
    requires Enumeration(calls, begin, next) && |calls| > 1
    ensures Enumeration(calls[..|calls| - 1], begin, next)
  {
    var front := calls[..|calls| - 1];
    assert forall i :: 0 <= i < |front| ==> front[i] == calls[i];
  }

  /** What is held after the i-th call of an enumeration of n things. */
  predicate HeldAfter(h: Held, call: Call, n: nat, command: StatefulCommand) {
    if n > 1 then h == SetCommand(command, call) else h == CLEARED
  }

  /**
   * Enumerating RPs answers with every stored RP once, in order, the first answer announcing
   * how many there are; every further call is refused.
   */
  lemma {:induction false} EnumeratesEveryRpOnce(
    store: CredentialStore, h: Held, calls: seq<Call>, hash: string -> ByteString)
    requires Enumeration(calls, RpsBegin, RpsNext)
    ensures var rps := StoredRpIds(store); var (k, rs) := Answers(store, h, calls, hash);
      && HeldAfter(k, calls[0], |rps|, EnumerateRps(|calls|))
      && |rs| == |calls|
      && forall i :: 0 <= i < |calls| ==>
           rs[i] == (if i < |rps| then Ok(Rp(rps[i], if i == 0 then Some(|rps|) else None))
                     else Err(if i == 0 then NoCredentials else NotAllowed))
    decreases |calls|
  {
    var front := calls[..|calls| - 1];
    AnswersStep(store, h, calls, hash);
    if |calls| == 1 {
      assert front == [];
    } else {
      EnumerationFront(calls, RpsBegin, RpsNext);
      EnumeratesEveryRpOnce(store, h, front, hash);
      assert front[0] == calls[0];
      hide OnCall, HeldAfter, Answers, Enumeration, StoredRpIds;
      RpsNextStep(store, Answers(store, h, front, hash).0, calls[0], calls[|front|], |front|, hash);
    }
  }

  lemma AnswersStep(store: CredentialStore, h: Held, calls: seq<Call>, hash: string -> ByteString)
    requires calls != []
    ensures var (k, rs) := Answers(store, h, calls[..|calls| - 1], hash);
      var (k', r) := OnCall(store, k, calls[|calls| - 1], hash);
      Answers(store, h, calls, hash) == (k', rs + [r])
  {
    hide OnCall;
  }

  lemma RpsNextStep(store: CredentialStore, k: Held, begun: Call, call: Call, i: nat, hash: string -> ByteString)
    requires HeldAfter(k, begun, |StoredRpIds(store)|, EnumerateRps(i)) && i > 0
    requires call.sub == RpsNext && call.channel == begun.channel
    requires call.now <= begun.now + STATEFUL_COMMAND_TIMEOUT
    ensures var rps := StoredRpIds(store); var (k', r) := OnCall(store, k, call, hash);
      && HeldAfter(k', begun, |rps|, EnumerateRps(i + 1))
      && r == if i < |rps| then Ok(Rp(rps[i], None)) else Err(NotAllowed)
  {
  }

  /** The keys still to come after i answers, from the end of the list backwards. */
  function Remaining(keys: seq<nat>, i: nat): seq<nat> { if i < |keys| then keys[..|keys| - i] else [] }

  /** The answer the i-th call of an enumeration of the keys gets. */
  predicate CredentialAnswer(store: CredentialStore, keys: seq<nat>, i: nat, r: Result<Response, Status>) {
    if i < |keys| then
      && GetCredential(store, keys[|keys| - 1 - i]).Some?
      && r == Ok(Found(GetCredential(store, keys[|keys| - 1 - i]).value, if i == 0 then Some(|keys|) else None))
    else r == Err(if i == 0 then NoCredentials else NotAllowed)
  }

  /**
   * Enumerating the credentials of an RP answers with each of them once, the last stored
   * first; every further call is refused.
   */
  lemma {:induction false} EnumeratesEveryCredentialOnce(
    store: CredentialStore, h: Held, calls: seq<Call>, rpIdHash: ByteString, hash: string -> ByteString)
    requires DistinctKeys(store) && Enumeration(calls, CredentialsBegin(Some(rpIdHash)), CredentialsNext)
    ensures var keys := KeysOf(store, rpIdHash, hash); var (k, rs) := Answers(store, h, calls, hash);
      && HeldAfter(k, calls[0], |keys|, EnumerateCredentials(Remaining(keys, |calls|)))
      && |rs| == |calls|
      && forall i :: 0 <= i < |calls| ==> CredentialAnswer(store, keys, i, rs[i])
    decreases |calls|
  {
    var keys := KeysOf(store, rpIdHash, hash);
    var front := calls[..|calls| - 1];
    var i := |front|;
    AnswersStep(store, h, calls, hash);
    if i < |keys| {
      KeyIsStored(store, rpIdHash, hash, |keys| - 1 - i);
    }
    if |calls| == 1 {
      assert front == [];
      CredentialsBeginStep(store, h, calls[0], rpIdHash, hash);
      hide OnCall, HeldAfter, CredentialAnswer, DistinctKeys, KeysOf;
    } else {
      EnumerationFront(calls, CredentialsBegin(Some(rpIdHash)), CredentialsNext);
      EnumeratesEveryCredentialOnce(store, h, front, rpIdHash, hash);
      assert front[0] == calls[0];
      hide OnCall, HeldAfter, CredentialAnswer, DistinctKeys, KeysOf, Answers, Enumeration;
      CredentialsNextStep(store, Answers(store, h, front, hash).0, calls[0], calls[i], i, keys, hash);
    }
  }

  lemma CredentialsBeginStep(
    store: CredentialStore, h: Held, call: Call, rpIdHash: ByteString, hash: string -> ByteString)
    requires call.sub == CredentialsBegin(Some(rpIdHash)) && !call.denied
    requires var keys := KeysOf(store, rpIdHash, hash); keys != [] ==> GetCredential(store, keys[|keys| - 1]).Some?
    ensures var keys := KeysOf(store, rpIdHash, hash); var (k', r) := OnCall(store, h, call, hash);
      && HeldAfter(k', call, |keys|, EnumerateCredentials(Remaining(keys, 1)))
      && CredentialAnswer(store, keys, 0, r)
  {
    hide KeysOf, GetCredential;
  }

  lemma KeyIsStored(store: CredentialStore, rpIdHash: ByteString, hash: string -> ByteString, i: nat)
    requires DistinctKeys(store) && i < |KeysOf(store, rpIdHash, hash)|
    ensures GetCredential(store, KeysOf(store, rpIdHash, hash)[i]).Some?
  {
    KeysOfAre(store, rpIdHash, hash);
    var key := KeysOf(store, rpIdHash, hash)[i];
    assert key in KeysOf(store, rpIdHash, hash);
    var c :| c in store && c.0 == key;
    var j :| 0 <= j < |store| && store[j] == c;
    GetCredentialFinds(store, j);
  }

  lemma CredentialsNextStep(
    store: CredentialStore, k: Held, begun: Call, call: Call, i: nat, keys: seq<nat>, hash: string -> ByteString)
    requires HeldAfter(k, begun, |keys|, EnumerateCredentials(Remaining(keys, i))) && i > 0
    requires i < |keys| ==> GetCredential(store, keys[|keys| - 1 - i]).Some?
    requires call.sub == CredentialsNext && call.channel == begun.channel
    requires call.now <= begun.now + STATEFUL_COMMAND_TIMEOUT
    ensures var (k', r) := OnCall(store, k, call, hash);
      && HeldAfter(k', begun, |keys|, EnumerateCredentials(Remaining(keys, i + 1)))
      && CredentialAnswer(store, keys, i, r)
  {
    if 1 < |keys| && i < |keys| {
      var rest := Remaining(keys, i);
      assert rest[|rest| - 1] == keys[|keys| - 1 - i];
      assert rest[..|rest| - 1] == Remaining(keys, i + 1);
    }
  }

  // ---------- what ends an enumeration, and what a next needs ----------

  datatype Kind = Rps | Credentials

  predicate IsNextOf(kind: Kind, sub: SubCommand) { if kind.Rps? then sub.RpsNext? else sub.CredentialsNext? }

  /** A begin of the kind that the token checks let through, with its parameter. */
  predicate Begins(kind: Kind, call: Call) {
    && !call.denied
    && if kind.Rps? then call.sub.RpsBegin? else call.sub.CredentialsBegin? && call.sub.rpIdHash.Some?
  }

  predicate Holds(kind: Kind, h: Held) {
    && h.command.Some?
    && if kind.Rps? then h.command.value.EnumerateRps? else h.command.value.EnumerateCredentials?
  }

  /** Any call but a new begin and the matching next on the same channel and in time. */
  predicate Interrupts(kind: Kind, h: Held, call: Call) {
    && !Begins(kind, call)
    && (IsNextOf(kind, call.sub) ==> (h.channel.Some? && call.channel != h.channel.value) || !Granted(h, call.now))
  }

  lemma InterruptionDrops(store: CredentialStore, h: Held, call: Call, hash: string -> ByteString, kind: Kind)
    requires Interrupts(kind, h, call)
    ensures var (k, r) := OnCall(store, h, call, hash);
      !Holds(kind, k) && (IsNextOf(kind, call.sub) ==> r == Err(NotAllowed))
  {
    hide StoredRpIds, KeysOf, GetCredential;
  }

  lemma DroppedStays(store: CredentialStore, h: Held, call: Call, hash: string -> ByteString, kind: Kind)
    requires !Holds(kind, h) && !Begins(kind, call)
    ensures var (k, r) := OnCall(store, h, call, hash);
      !Holds(kind, k) && (IsNextOf(kind, call.sub) ==> r == Err(NotAllowed))
  {
    hide StoredRpIds, KeysOf, GetCredential;
  }

  /**
   * Anything else in between ends the enumeration: another subcommand, the other kind's begin
   * granted or not, another channel, or time running out. From then on every next is refused
   * until a begin of its kind is granted.
   */
  lemma {:induction false} InterruptionEndsEnumeration(
    store: CredentialStore, h: Held, calls: seq<Call>, hash: string -> ByteString, kind: Kind)
    requires calls != [] && Interrupts(kind, h, calls[0])
    requires forall i :: 0 < i < |calls| ==> !Begins(kind, calls[i])
    ensures var (k, rs) := Answers(store, h, calls, hash);
      && !Holds(kind, k) && |rs| == |calls|
      && forall i :: 0 <= i < |calls| && IsNextOf(kind, calls[i].sub) ==> rs[i] == Err(NotAllowed)
    decreases |calls|
  {
    hide OnCall, Interrupts, Begins, Holds, IsNextOf;
    var i := |calls| - 1;
    AnswersStep(store, h, calls, hash);
    if i == 0 {
      assert calls[..i] == [];
      InterruptionDrops(store, h, calls[0], hash, kind);
    } else {
      InterruptionEndsEnumeration(store, h, calls[..i], hash, kind);
      DroppedStays(store, Answers(store, h, calls[..i], hash).0, calls[i], hash, kind);
    }
  }

  /** The i-th call began an enumeration of the kind, and up to the j-th it was only continued. */
  ghost predicate Unbroken(kind: Kind, calls: seq<Call>, i: nat, j: nat) {
    && i <= j < |calls| && Begins(kind, calls[i])
    && forall m :: i < m <= j ==> Goes(kind, calls[i], calls[m])
  }

  predicate Goes(kind: Kind, begun: Call, call: Call) {
    && IsNextOf(kind, call.sub) && call.channel == begun.channel
    && call.now <= begun.now + 30_000
  }

  /** What is held was set by that begin. */
  predicate SetBy(h: Held, begun: Call) {
    h.until == Some(begun.now + STATEFUL_COMMAND_TIMEOUT) && h.channel == Some(begun.channel)
  }

  lemma BeginHolds(store: CredentialStore, h: Held, call: Call, hash: string -> ByteString, kind: Kind)
    requires Begins(kind, call)
    ensures var k := OnCall(store, h, call, hash).0; Holds(kind, k) ==> SetBy(k, call)
  {
    hide StoredRpIds, KeysOf, GetCredential;
  }

  lemma NextHolds(store: CredentialStore, h: Held, begun: Call, call: Call, hash: string -> ByteString, kind: Kind)
    requires !Begins(kind, call) && (Holds(kind, h) ==> SetBy(h, begun))
    ensures var (k, r) := OnCall(store, h, call, hash);
      && (Holds(kind, k) ==> Holds(kind, h) && Goes(kind, begun, call) && SetBy(k, begun))
      && (IsNextOf(kind, call.sub) && r != Err(NotAllowed) ==> Holds(kind, h) && Goes(kind, begun, call))
  {
    hide StoredRpIds, KeysOf, GetCredential;
  }

  lemma UnbrokenGrows(kind: Kind, calls: seq<Call>, i: nat, j: nat)
    requires j + 1 < |calls| && Unbroken(kind, calls[..j + 1], i, j) && Goes(kind, calls[i], calls[j + 1])
    ensures Unbroken(kind, calls, i, j + 1)
  {
    hide Goes, Begins;
    assert calls[..j + 1][i] == calls[i];
    forall m | i < m <= j ensures Goes(kind, calls[i], calls[m]) {
      assert calls[..j + 1][m] == calls[m];
    }
  }

  /** What is held comes from a begin that nothing has interrupted. */
  lemma {:induction false} HeldIsUnbroken(
    store: CredentialStore, h: Held, calls: seq<Call>, hash: string -> ByteString, kind: Kind) returns (i: nat)
    requires !Holds(kind, h)
    ensures var k := Answers(store, h, calls, hash).0;
      Holds(kind, k) ==> Unbroken(kind, calls, i, |calls| - 1) && SetBy(k, calls[i])
    decreases |calls|
  {
    hide OnCall, Begins, Holds, Goes, SetBy;
    i := 0;
    if calls != [] {
      var n := |calls| - 1;
      AnswersStep(store, h, calls, hash);
      var k := Answers(store, h, calls[..n], hash).0;
      if Begins(kind, calls[n]) {
        i := n;
        BeginHolds(store, k, calls[n], hash, kind);
      } else {
        i := HeldIsUnbroken(store, h, calls[..n], hash, kind);
        if Holds(kind, k) {
          NextHolds(store, k, calls[i], calls[n], hash, kind);
          if Goes(kind, calls[i], calls[n]) {
            UnbrokenGrows(kind, calls, i, n - 1);
          }
        } else {
          DroppedStays(store, k, calls[n], hash, kind);
        }
      }
    }
  }

  /** Outside an unbroken enumeration a next is refused. */
  lemma NextNeedsAnEnumeration(
    store: CredentialStore, h: Held, calls: seq<Call>, hash: string -> ByteString, kind: Kind, j: nat)
    returns (i: nat)
    requires !Holds(kind, h) && j < |calls| && IsNextOf(kind, calls[j].sub)
    ensures |Answers(store, h, calls, hash).1| == |calls|
    ensures Answers(store, h, calls, hash).1[j] != Err(NotAllowed) ==> Unbroken(kind, calls, i, j)
  {
    hide OnCall, Holds, Goes, SetBy;
    AnswersPrefix(store, h, calls, hash, j + 1);
    var now := calls[..j + 1];
    assert now[..j] == calls[..j];
    AnswersStep(store, h, now, hash);
    AnswersPrefix(store, h, calls, hash, j);
    i := HeldIsUnbroken(store, h, calls[..j], hash, kind);
    var k := Answers(store, h, calls[..j], hash).0;
    if Holds(kind, k) {
      NextHolds(store, k, calls[i], calls[j], hash, kind);
      if Goes(kind, calls[i], calls[j]) {
        UnbrokenGrows(kind, now, i, j - 1);
        assert Unbroken(kind, calls, i, j) by {
          UnbrokenIn(kind, calls, i, j);
        }
      }
    } else {
      DroppedStays(store, k, calls[j], hash, kind);
    }
  }

  lemma UnbrokenIn(kind: Kind, calls: seq<Call>, i: nat, j: nat)
    requires j < |calls| && Unbroken(kind, calls[..j + 1], i, j)
    ensures Unbroken(kind, calls, i, j)
  {
    hide Goes, Begins;
    forall m | i < m <= j ensures Goes(kind, calls[i], calls[m]) {
      assert calls[..j + 1][m] == calls[m] && calls[..j + 1][i] == calls[i];
    }
  }

  lemma {:induction false} AnswersPrefix(
    store: CredentialStore, h: Held, calls: seq<Call>, hash: string -> ByteString, n: nat)
    requires n <= |calls|
    ensures |Answers(store, h, calls[..n], hash).1| == n
    ensures |Answers(store, h, calls, hash).1| == |calls|
    ensures Answers(store, h, calls, hash).1[..n] == Answers(store, h, calls[..n], hash).1
    decreases |calls|
  {
    hide OnCall;
    assert calls[..|calls|] == calls;
    if calls != [] {
      AnswersStep(store, h, calls, hash);
      if n < |calls| {
        AnswersPrefix(store, h, calls[..|calls| - 1], hash, n);
        assert calls[..|calls| - 1][..n] == calls[..n];
      } else {
        AnswersPrefix(store, h, calls[..|calls| - 1], hash, |calls| - 1);
      }
    }
  }

  /** Calls from the i-th on are answered from what the ones before have left. */
  lemma {:induction false} AnswersFrom(
    store: CredentialStore, h: Held, calls: seq<Call>, hash: string -> ByteString, i: nat)
    requires i <= |calls|
    ensures var (k, rs) := Answers(store, h, calls[..i], hash);
      var (k', rs') := Answers(store, k, calls[i..], hash);
      |rs| == i && |rs'| == |calls| - i && Answers(store, h, calls, hash) == (k', rs + rs')
    decreases |calls|
  {
    hide OnCall;
    AnswersPrefix(store, h, calls, hash, i);
    if i == |calls| {
      assert calls[..i] == calls && calls[i..] == [];
      var rs := Answers(store, h, calls, hash).1;
      assert rs + [] == rs;
    } else {
      var n := |calls| - 1;
      AnswersStep(store, h, calls, hash);
      AnswersFrom(store, h, calls[..n], hash, i);
      var late := calls[i..];
      assert calls[..n][..i] == calls[..i] && calls[..n][i..] == late[..|late| - 1] && calls[n] == late[|late| - 1];
      var (k, rs) := Answers(store, h, calls[..i], hash);
      AnswersStep(store, k, late, hash);
      var (k1, rs1) := Answers(store, k, late[..|late| - 1], hash);
      var r := OnCall(store, k1, calls[n], hash).1;
      assert (rs + rs1) + [r] == rs + (rs1 + [r]);
    }
  }

  /** The calls of an unbroken enumeration of the kind. */
  lemma UnbrokenIsEnumeration(kind: Kind, calls: seq<Call>, i: nat, j: nat)
    requires Unbroken(kind, calls, i, j)
    ensures Enumeration(calls[i..j + 1], calls[i].sub, if kind.Rps? then RpsNext else CredentialsNext)
  {
    var part := calls[i..j + 1];
    forall m | 0 < m < |part| ensures Goes(kind, calls[i], part[m]) {
      assert part[m] == calls[i + m];
    }
  }

  lemma PartAnswers(
    store: CredentialStore, h: Held, calls: seq<Call>, hash: string -> ByteString, i: nat, j: nat)
    requires i <= j < |calls|
    ensures var rs := Answers(store, Answers(store, h, calls[..i], hash).0, calls[i..j + 1], hash).1;
      && |rs| == j + 1 - i && |Answers(store, h, calls, hash).1| == |calls|
      && Answers(store, h, calls, hash).1[j] == rs[j - i]
  {
    hide OnCall, Answers;
    AnswersPrefix(store, h, calls, hash, j + 1);
    AnswersFrom(store, h, calls[..j + 1], hash, i);
    assert calls[..j + 1][..i] == calls[..i] && calls[..j + 1][i..] == calls[i..j + 1];
  }

  /** The answer to the m-th call after the begin of an enumeration. */
  predicate InTurn(
    kind: Kind, store: CredentialStore, begun: Call, m: nat, r: Result<Response, Status>, hash: string -> ByteString)
    requires Begins(kind, begun)
  {
    if kind.Rps? then
      var rps := StoredRpIds(store);
      r == if m < |rps| then Ok(Rp(rps[m], None)) else Err(NotAllowed)
    else CredentialAnswer(store, KeysOf(store, begun.sub.rpIdHash.value, hash), m, r)
  }

  /** The answer to a next at j: the one whose turn it is in its unbroken enumeration, or no. */
  ghost predicate NextAnswered(
    kind: Kind, store: CredentialStore, calls: seq<Call>, j: nat, r: Result<Response, Status>,
    hash: string -> ByteString)
    requires j < |calls|
  {
    && (forall i: nat :: Unbroken(kind, calls, i, j) ==> InTurn(kind, store, calls[i], j - i, r, hash))
    && ((forall i: nat :: !Unbroken(kind, calls, i, j)) ==> r == Err(NotAllowed))
  }

  lemma TurnOf(
    store: CredentialStore, h: Held, calls: seq<Call>, hash: string -> ByteString, kind: Kind, i: nat, j: nat)
    requires kind.Credentials? ==> DistinctKeys(store)
    requires Unbroken(kind, calls, i, j) && IsNextOf(kind, calls[j].sub)
    ensures |Answers(store, h, calls, hash).1| == |calls|
    ensures InTurn(kind, store, calls[i], j - i, Answers(store, h, calls, hash).1[j], hash)
  {
    hide OnCall, KeysOf, StoredRpIds, CredentialAnswer, DistinctKeys, Answers, HeldAfter;
    UnbrokenIsEnumeration(kind, calls, i, j);
    PartAnswers(store, h, calls, hash, i, j);
    var before := Answers(store, h, calls[..i], hash).0;
    if kind.Rps? {
      EnumeratesEveryRpOnce(store, before, calls[i..j + 1], hash);
    } else {
      EnumeratesEveryCredentialOnce(store, before, calls[i..j + 1], calls[i].sub.rpIdHash.value, hash);
    }
  }

  /** In any run, every next is answered with what its unbroken enumeration has come to, or refused. */
  lemma EveryNextIsAnswered(
    store: CredentialStore, h: Held, calls: seq<Call>, hash: string -> ByteString, kind: Kind, j: nat)
    requires kind.Credentials? ==> DistinctKeys(store)
    requires !Holds(kind, h) && j < |calls| && IsNextOf(kind, calls[j].sub)
    ensures |Answers(store, h, calls, hash).1| == |calls|
    ensures NextAnswered(kind, store, calls, j, Answers(store, h, calls, hash).1[j], hash)
  {
    hide OnCall, Holds, InTurn, DistinctKeys, Answers, Unbroken;
    var _ := NextNeedsAnEnumeration(store, h, calls, hash, kind, j);
    forall i: nat | Unbroken(kind, calls, i, j)
      ensures i <= j < |calls| && Begins(kind, calls[i])
      ensures InTurn(kind, store, calls[i], j - i, Answers(store, h, calls, hash).1[j], hash)
    {
      UnbrokenBegins(kind, calls, i, j);
      TurnOf(store, h, calls, hash, kind, i, j);
    }
  }

  lemma UnbrokenBegins(kind: Kind, calls: seq<Call>, i: nat, j: nat)
    requires Unbroken(kind, calls, i, j)
    ensures i <= j < |calls| && Begins(kind, calls[i])
  {
  }

  /** What any sequence of calls is answered by the object that holds the state. */
  method RunCalls(store: CredentialStore, held: StatefulPermission, calls: seq<Call>, hash: string -> ByteString)
    returns (rs: seq<Result<Response, Status>>)
    requires DistinctKeys(store) && !Holds(Rps, held.View()) && !Holds(Credentials, held.View())
    modifies held
    ensures |rs| == |calls| && (held.View(), rs) == Answers(store, old(held.View()), calls, hash)
    ensures forall kind, j :: 0 <= j < |calls| && IsNextOf(kind, calls[j].sub) ==>
      NextAnswered(kind, store, calls, j, rs[j], hash)
  {
    hide OnCall, Holds, NextAnswered, DistinctKeys, IsNextOf;
    ghost var h := held.View();
    rs := [];
    for n := 0 to |calls|
      invariant |rs| == n && (held.View(), rs) == Answers(store, h, calls[..n], hash)
    {
      AnswersStep(store, h, calls[..n + 1], hash);
      assert calls[..n + 1][..n] == calls[..n];
      var r := ProcessCredentialManagement(store, held, calls[n], hash);
      rs := rs + [r];
    }
    assert calls[..|calls|] == calls;
    forall kind, j | 0 <= j < |calls| && IsNextOf(kind, calls[j].sub)
      ensures NextAnswered(kind, store, calls, j, rs[j], hash)
    {
      assert kind == Rps || kind == Credentials;
      EveryNextIsAnswered(store, h, calls, hash, kind, j);
    }
  }
}
