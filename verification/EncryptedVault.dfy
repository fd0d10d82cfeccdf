/**
 An encrypted store: key files, cipher files and rows. Sealing is ideal authenticated encryption; ids, keys
 and nonces are arguments. A call may stop between two of its writes.
 */
module EncryptedVault {
  import opened Prelude

  datatype VaultState =
    | Active | LocalDeleted | CryptographicallyErased | RemoteDeletionRequested | RemoteDeletionAttested
    | RemoteDeletionUnverified | RetentionLegallyRequired

  /** A ciphertext opens only under its own key and associated data, and then to its own plaintext. */
  datatype Sealed = Sealed(key: nat, aad: (string, string), plain: Bytes)

  /** A file of the vault: the directory the vault was in when it was written or moved, and the name. */
  type Place = (string, string)

  /** Stored paths are relative to the vault, so only the name is kept. */
  datatype Row = Row(controller: string, contentSha: string, state: VaultState, cipherName: string, keyName: string)

  datatype Vault = Vault(root: string, keys: map<Place, nat>, ciphers: map<Place, Sealed>, rows: map<string, Row>)

  datatype ReadError =
    | NotFound | WrongController | Unavailable(state: VaultState) | NoKey | NoCipher | DecryptFailed | Mismatch

  datatype CallError = UnknownObject | NotYours | InvalidState | CallStopped

  datatype PutStop = PutDone | AfterCipher | AfterKey

  function Opened(key: nat, aad: (string, string), s: Sealed): Option<Bytes> {
    if s.key == key && s.aad == aad then Some(s.plain) else None
  }

  /** put_bytes */
  function Put(hash: Bytes -> string, v: Vault, who: string, data: Bytes, id: string, key: nat, stop: PutStop): Vault {
    var v1 := v.(ciphers := v.ciphers[(v.root, id) := Sealed(key, (id, who), data)]);
    if stop.AfterCipher? then v1
    else
      var v2 := v1.(keys := v1.keys[(v.root, id) := key]);
      if stop.AfterKey? then v2 else v2.(rows := v2.rows[id := Row(who, hash(data), Active, id, id)])
  }

  /** read_bytes */
  function Read(hash: Bytes -> string, v: Vault, who: string, id: string): Result<Bytes, ReadError> {
    if id !in v.rows then Err(NotFound)
    else
      var row := v.rows[id];
      if row.controller != who then Err(WrongController)
      else if !row.state.Active? then Err(Unavailable(row.state))
      else if (v.root, row.keyName) !in v.keys then Err(NoKey)
      else if (v.root, row.cipherName) !in v.ciphers then Err(NoCipher)
      else
        match Opened(v.keys[(v.root, row.keyName)], (id, who), v.ciphers[(v.root, row.cipherName)])
        case None => Err(DecryptFailed)
        case Some(plain) => if hash(plain) != row.contentSha then Err(Mismatch) else Ok(plain)
  }

  /** lifecycle; stopped is set when the call ends after the file was removed and before the row was updated. */
  function Lifecycle(v: Vault, who: string, id: string, state: Option<VaultState>, stopped: bool)
    : (Vault, Option<CallError>)
  {
    if state.None? then (v, Some(InvalidState))
    else if id !in v.rows then (v, Some(UnknownObject))
    else if v.rows[id].controller != who then (v, Some(NotYours))
    else
      var row := v.rows[id];
      var v1 := if state.value.CryptographicallyErased? then v.(keys := v.keys - {(v.root, row.keyName)})
                else if state.value.LocalDeleted? then v.(ciphers := v.ciphers - {(v.root, row.cipherName)})
                else v;
      if stopped then (v1, Some(CallStopped)) else (v1.(rows := v1.rows[id := row.(state := state.value)]), None)
  }

  /** The whole vault directory moved: what lay under the old root lies under the new one. */
  function Moved<T>(files: map<Place, T>, from: string, to: string): map<Place, T> {
    (map q | q in files && q.0 != from :: files[q]) + (map q | q in files && q.0 == from :: (to, q.1) := files[q])
  }

  function Move(v: Vault, to: string): Vault {
    v.(root := to, keys := Moved(v.keys, v.root, to), ciphers := Moved(v.ciphers, v.root, to))
  }

  class EncryptedDataVault {
    const hash: Bytes -> string
    var root: string
    var keys: map<Place, nat>
    var ciphers: map<Place, Sealed>
    var rows: map<string, Row>

    ghost function Value(): Vault
      reads this
    {
      Vault(root, keys, ciphers, rows)
    }

    constructor (hash: Bytes -> string, root: string)
      ensures this.hash == hash && Value() == Vault(root, map[], map[], map[])
    {
      this.hash, this.root := hash, root;
      keys, ciphers, rows := map[], map[], map[];
    }

    method PutBytes(who: string, data: Bytes, id: string, key: nat, stop: PutStop)
      modifies this
      ensures Value() == Put(hash, old(Value()), who, data, id, key, stop)
      ensures root == old(root) && ciphers == old(ciphers)[(root, id) := Sealed(key, (id, who), data)]
      ensures keys == if stop.AfterCipher? then old(keys) else old(keys)[(root, id) := key]
      ensures stop.PutDone? ==> rows == old(rows)[id := Row(who, hash(data), Active, id, id)]
      ensures !stop.PutDone? ==> rows == old(rows)
      ensures forall x :: x in old(rows) && x != id ==> x in rows && rows[x] == old(rows)[x]
    {
      ciphers := ciphers[(root, id) := Sealed(key, (id, who), data)];
      if stop.AfterCipher? { return; }
      keys := keys[(root, id) := key];
      if stop.AfterKey? { return; }
      rows := rows[id := Row(who, hash(data), Active, id, id)];
    }

    method ReadBytes(who: string, id: string) returns (r: Result<Bytes, ReadError>)
      ensures r == Read(hash, Value(), who, id)
    {
      if id !in rows { return Err(NotFound); }
      var row := rows[id];
      if row.controller != who { return Err(WrongController); }
      if !row.state.Active? { return Err(Unavailable(row.state)); }
      if (root, row.keyName) !in keys { return Err(NoKey); }
      if (root, row.cipherName) !in ciphers { return Err(NoCipher); }
      var plain := Opened(keys[(root, row.keyName)], (id, who), ciphers[(root, row.cipherName)]);
      if plain.None? { return Err(DecryptFailed); }
      r := if hash(plain.value) != row.contentSha then Err(Mismatch) else Ok(plain.value);
    }

    method SetLifecycle(who: string, id: string, state: Option<VaultState>, stopped: bool)
      returns (error: Option<CallError>)
      modifies this
      ensures (Value(), error) == Lifecycle(old(Value()), who, id, state, stopped)
      ensures error.None?
              ==> state.Some? && id in old(rows) && rows == old(rows)[id := old(rows)[id].(state := state.value)]
      ensures error == if state.None? then Some(InvalidState) else if id !in old(rows) then Some(UnknownObject)
                       else if old(rows)[id].controller != who then Some(NotYours)
                       else if stopped then Some(CallStopped) else None
      ensures error.Some? ==> rows == old(rows)
      ensures error.Some? && error != Some(CallStopped) ==> Value() == old(Value())
      ensures root == old(root)
      ensures id in old(rows) && (error.None? || error == Some(CallStopped)) ==>
                && keys
                   == old(keys) - (if state == Some(CryptographicallyErased) then {(root, rows[id].keyName)} else {})
                && ciphers == old(ciphers) - (if state == Some(LocalDeleted) then {(root, rows[id].cipherName)} else {})
    {
      if state.None? { return Some(InvalidState); }
      if id !in rows { return Some(UnknownObject); }
      var row := rows[id];
      if row.controller != who { return Some(NotYours); }
      if state.value.CryptographicallyErased? { keys := keys - {(root, row.keyName)}; }
      if state.value.LocalDeleted? { ciphers := ciphers - {(root, row.cipherName)}; }
      if stopped { return Some(CallStopped); }
      rows := rows[id := row.(state := state.value)];
      error := None;
    }
  }

  // ----- histories -----

  datatype Event =
    | PutCall(who: string, data: Bytes, id: string, key: nat, stop: PutStop)
    | LifeCall(caller: string, objectId: string, state: Option<VaultState>, stopped: bool)
    | MoveCall(to: string)

  /** An id is drawn once, and a moved vault goes to a new directory. */
  ghost predicate Possible(v: Vault, e: Event) {
    match e
    case PutCall(_, _, id, _, _) => id !in v.rows && (v.root, id) !in v.keys && (v.root, id) !in v.ciphers
    case LifeCall(_, _, _, _) => true
    case MoveCall(to) => (forall p :: p in v.keys ==> p.0 != to) && (forall p :: p in v.ciphers ==> p.0 != to)
  }

  function Step(hash: Bytes -> string, v: Vault, e: Event): Vault {
    match e
    case PutCall(who, data, id, key, stop) => Put(hash, v, who, data, id, key, stop)
    case LifeCall(who, id, state, stopped) => Lifecycle(v, who, id, state, stopped).0
    case MoveCall(to) => Move(v, to)
  }

  /** v is the vault after these events from an empty one; the last event is the latest. */
  ghost predicate After(hash: Bytes -> string, root: string, events: seq<Event>, v: Vault)
    decreases |events|
  {
    if events == [] then v == Vault(root, map[], map[], map[])
    else
      var n := |events| - 1;
      exists u :: After(hash, root, events[..n], u) && Possible(u, events[n]) && v == Step(hash, u, events[n])
  }

  /** What the history says of one object: its bytes, its controller, the last state set, and what was destroyed. */
  datatype Life = Life(who: string, data: Bytes, state: VaultState, keyGone: bool, cipherGone: bool)

  function LifeOf(events: seq<Event>, id: string): Option<Life>
    decreases |events|
  {
    if events == [] then None
    else
      var before, e := LifeOf(events[..|events| - 1], id), events[|events| - 1];
      match e
      case PutCall(who, data, i, _, stop) =>
        if i == id && stop.PutDone? then Some(Life(who, data, Active, false, false)) else before
      case LifeCall(caller, i, state, stopped) =>
        if i != id || before.None? || caller != before.value.who || state.None? then before
        else
          var l := before.value;
          Some(Life(l.who, l.data, if stopped then l.state else state.value,
                    l.keyGone || state.value.CryptographicallyErased?, l.cipherGone || state.value.LocalDeleted?))
      case MoveCall(_) => before
  }

  /** The answer the history demands. */
  function Expected(l: Option<Life>, who: string): Result<Bytes, ReadError> {
    match l
    case None => Err(NotFound)
    case Some(life) =>
      if life.who != who then Err(WrongController)
      else if !life.state.Active? then Err(Unavailable(life.state))
      else if life.keyGone then Err(NoKey)
      else if life.cipherGone then Err(NoCipher)
      else Ok(life.data)
  }

  /** The vault holds an object exactly as its history left it. */
  ghost predicate Mirrors(hash: Bytes -> string, v: Vault, id: string, l: Option<Life>) {
    && (l.None? <==> id !in v.rows)
    && (l.Some? ==>
          && v.rows[id] == Row(l.value.who, hash(l.value.data), l.value.state, id, id)
          && (l.value.keyGone <==> (v.root, id) !in v.keys) && (l.value.cipherGone <==> (v.root, id) !in v.ciphers)
          && (!l.value.keyGone && !l.value.cipherGone ==>
                v.ciphers[(v.root, id)] == Sealed(v.keys[(v.root, id)], (id, l.value.who), l.value.data))
          && (!l.value.cipherGone ==> v.ciphers[(v.root, id)].aad == (id, l.value.who)))
  }

  ghost predicate AllMirror(hash: Bytes -> string, v: Vault, events: seq<Event>) {
    forall id :: Mirrors(hash, v, id, LifeOf(events, id))
  }

  lemma MovedFile<T>(files: map<Place, T>, from: string, to: string, name: string)
    requires forall p :: p in files ==> p.0 != to
    ensures (to, name) in Moved(files, from, to) <==> (from, name) in files
    ensures (from, name) in files ==> Moved(files, from, to)[(to, name)] == files[(from, name)]
  {
  }

  lemma {:induction false} PutMirrors(hash: Bytes -> string, v: Vault, events: seq<Event>, e: Event, id: string)
    requires e.PutCall? && Possible(v, e) && Mirrors(hash, v, id, LifeOf(events, id))
    ensures Mirrors(hash, Step(hash, v, e), id, LifeOf(events + [e], id))
  {
    assert (events + [e])[..|events|] == events;
  }

  lemma {:induction false} LifeMirrors(hash: Bytes -> string, v: Vault, events: seq<Event>, e: Event, id: string)
    requires e.LifeCall? && Mirrors(hash, v, id, LifeOf(events, id))
    requires Mirrors(hash, v, e.objectId, LifeOf(events, e.objectId))
    ensures Mirrors(hash, Step(hash, v, e), id, LifeOf(events + [e], id))
  {
    assert (events + [e])[..|events|] == events;
  }

  lemma {:induction false} MoveMirrors(hash: Bytes -> string, v: Vault, events: seq<Event>, e: Event, id: string)
    requires e.MoveCall? && Possible(v, e) && Mirrors(hash, v, id, LifeOf(events, id))
    ensures Mirrors(hash, Step(hash, v, e), id, LifeOf(events + [e], id))
  {
    assert (events + [e])[..|events|] == events;
    MovedFile(v.keys, v.root, e.to, id);
    MovedFile(v.ciphers, v.root, e.to, id);
  }

  lemma {:induction false} StepMirrors(hash: Bytes -> string, v: Vault, events: seq<Event>, e: Event, id: string)
    requires Possible(v, e) && AllMirror(hash, v, events)
    ensures Mirrors(hash, Step(hash, v, e), id, LifeOf(events + [e], id))
  {
    assert Mirrors(hash, v, id, LifeOf(events, id));
    match e
    case PutCall(_, _, _, _, _) => PutMirrors(hash, v, events, e, id);
    case LifeCall(_, i, _, _) =>
      assert Mirrors(hash, v, i, LifeOf(events, i));
      LifeMirrors(hash, v, events, e, id);
    case MoveCall(_) => MoveMirrors(hash, v, events, e, id);
  }

  lemma {:induction false} RunMirrors(hash: Bytes -> string, root: string, events: seq<Event>, v: Vault)
    requires After(hash, root, events, v)
    ensures AllMirror(hash, v, events)
    decreases |events|
  {
    if events != [] {
      var n := |events| - 1;
      var u :| After(hash, root, events[..n], u) && Possible(u, events[n]) && v == Step(hash, u, events[n]);
      RunMirrors(hash, root, events[..n], u);
      assert events == events[..n] + [events[n]];
      forall id ensures Mirrors(hash, v, id, LifeOf(events, id)) { StepMirrors(hash, u, events[..n], events[n], id); }
    }
  }

  /** In every run a read answers exactly what the history of that object demands: never DecryptFailed or Mismatch. */
  lemma {:induction false} ReadFollowsHistory(hash: Bytes -> string, root: string, events: seq<Event>, v: Vault,
                                              who: string, id: string)
    requires After(hash, root, events, v)
    ensures Read(hash, v, who, id) == Expected(LifeOf(events, id), who)
  {
    RunMirrors(hash, root, events, v);
    assert Mirrors(hash, v, id, LifeOf(events, id));
  }

  // ----- reading a history -----

  predicate CompletesPut(e: Event, id: string) { e.PutCall? && e.id == id && e.stop.PutDone? }

  function LastPut(events: seq<Event>, id: string): (r: Option<nat>)
    ensures r.Some? ==> r.value < |events| && CompletesPut(events[r.value], id)
    ensures forall i :: 0 <= i < |events| && CompletesPut(events[i], id) ==> r.Some? && i <= r.value
    decreases |events|
  {
    if events == [] then None
    else if CompletesPut(events[|events| - 1], id) then Some(|events| - 1)
    else LastPut(events[..|events| - 1], id)
  }

  /** A call of the controller on the object with a valid state, completed or stopped. */
  predicate Asks(e: Event, id: string, who: string, state: VaultState) {
    e.LifeCall? && e.objectId == id && e.caller == who && e.state == Some(state)
  }

  predicate Sets(e: Event, id: string, who: string) {
    e.LifeCall? && e.objectId == id && e.caller == who && e.state.Some? && !e.stopped
  }

  /** After p some call of the controller asked for the state. */
  ghost predicate Asked(events: seq<Event>, p: nat, id: string, who: string, state: VaultState) {
    exists j :: p < j < |events| && Asks(events[j], id, who, state)
  }

  /** Every completed call after p that set another state was followed by one that set ACTIVE. */
  ghost predicate LastSetActive(events: seq<Event>, p: nat, id: string, who: string) {
    forall j :: p < j < |events| && Sets(events[j], id, who) && events[j].state != Some(Active) ==>
      exists k :: j < k < |events| && Sets(events[k], id, who) && events[k].state == Some(Active)
  }

  /** The fold over events says just that about the last put of the object. */
  lemma {:induction false} LifeMeans(events: seq<Event>, id: string)
    ensures LifeOf(events, id).None? <==> LastPut(events, id).None?
    ensures LifeOf(events, id).Some? ==>
              var l, p := LifeOf(events, id).value, LastPut(events, id).value;
              && l.who == events[p].who && l.data == events[p].data
              && (l.keyGone <==> Asked(events, p, id, l.who, CryptographicallyErased))
              && (l.cipherGone <==> Asked(events, p, id, l.who, LocalDeleted))
              && (l.state.Active? <==> LastSetActive(events, p, id, l.who))
    decreases |events|
  {
    if events != [] {
      var n := |events| - 1;
      var before, e := events[..n], events[n];
      LifeMeans(before, id);
      if !CompletesPut(e, id) && LifeOf(before, id).Some? {
        var p, who := LastPut(before, id).value, LifeOf(before, id).value.who;
        AskedMore(events, p, id, who, CryptographicallyErased);
        AskedMore(events, p, id, who, LocalDeleted);
        ActiveMore(events, p, id, who);
      }
    }
  }

  lemma AskedMore(events: seq<Event>, p: nat, id: string, who: string, state: VaultState)
    requires events != [] && p < |events| - 1
    ensures Asked(events, p, id, who, state)
            <==> Asked(events[..|events| - 1], p, id, who, state) || Asks(events[|events| - 1], id, who, state)
  {
  }

  lemma ActiveMore(events: seq<Event>, p: nat, id: string, who: string)
    requires events != [] && p < |events| - 1
    ensures LastSetActive(events, p, id, who)
            <==> if Sets(events[|events| - 1], id, who) then events[|events| - 1].state == Some(Active)
                 else LastSetActive(events[..|events| - 1], p, id, who)
  {
  }

  /**
   A read returns bytes exactly when the caller is the controller, the last state set is ACTIVE, and after the put
   the controller never asked to erase the key or delete the content; the bytes are those stored.
   */
  lemma {:induction false} ReadableExactly(hash: Bytes -> string, root: string, events: seq<Event>, v: Vault,
                                           who: string, id: string, data: Bytes)
    requires After(hash, root, events, v)
    ensures Read(hash, v, who, id) == Ok(data)
            <==> && LastPut(events, id).Some?
                 && var p := LastPut(events, id).value;
                 && events[p].who == who && events[p].data == data
                 && LastSetActive(events, p, id, who)
                 && !Asked(events, p, id, who, CryptographicallyErased) && !Asked(events, p, id, who, LocalDeleted)
  {
    ReadFollowsHistory(hash, root, events, v, who, id);
    LifeMeans(events, id);
  }

  /** The call at j set the state, and no completed call of the controller came after it. */
  ghost predicate LastSetAt(events: seq<Event>, j: int, id: string, who: string, state: VaultState) {
    && 0 <= j < |events| && Sets(events[j], id, who) && events[j].state == Some(state)
    && forall k :: j < k < |events| ==> !Sets(events[k], id, who)
  }

  /** The state the controller's last completed call after p set, or ACTIVE if there is none. */
  ghost predicate StateSet(events: seq<Event>, p: nat, id: string, who: string, state: VaultState) {
    || (state.Active? && forall j :: p < j < |events| ==> !Sets(events[j], id, who))
    || exists j :: p < j && LastSetAt(events, j, id, who, state)
  }

  lemma {:induction false} StateMeans(events: seq<Event>, id: string)
    ensures LifeOf(events, id).Some? ==>
              && LastPut(events, id).Some?
              && var l, p := LifeOf(events, id).value, LastPut(events, id).value;
              && l.who == events[p].who && StateSet(events, p, id, l.who, l.state)
    decreases |events|
  {
    if events != [] {
      var n := |events| - 1;
      var before, e := events[..n], events[n];
      StateMeans(before, id);
      if LifeOf(events, id).Some? && !CompletesPut(e, id) {
        StateMore(events, LastPut(before, id).value, id, LifeOf(before, id).value.who, LifeOf(before, id).value.state);
      }
    }
  }

  lemma {:induction false} StateMore(events: seq<Event>, p: nat, id: string, who: string, state: VaultState)
    requires events != [] && p < |events| - 1 && StateSet(events[..|events| - 1], p, id, who, state)
    ensures var e := events[|events| - 1];
            StateSet(events, p, id, who, if Sets(e, id, who) then e.state.value else state)
  {
    var n := |events| - 1;
    if Sets(events[n], id, who) {
      assert LastSetAt(events, n, id, who, events[n].state.value);
    } else if j :| p < j && LastSetAt(events[..n], j, id, who, state) {
      StaysLast(events, j, id, who, state);
    }
  }

  lemma StaysLast(events: seq<Event>, j: int, id: string, who: string, state: VaultState)
    requires events != [] && LastSetAt(events[..|events| - 1], j, id, who, state)
    requires !Sets(events[|events| - 1], id, who)
    ensures LastSetAt(events, j, id, who, state)
  {
  }

  /** Why a read is refused, by the history of the object alone. */
  lemma {:induction false} RefusedExactly(hash: Bytes -> string, root: string, events: seq<Event>, v: Vault,
                                          who: string, id: string)
    requires After(hash, root, events, v)
    ensures Read(hash, v, who, id) == Err(NotFound) <==> LastPut(events, id).None?
    ensures LastPut(events, id).Some? ==>
              var r, p := Read(hash, v, who, id), LastPut(events, id).value;
              && (r == Err(WrongController) <==> events[p].who != who)
              && ((r.Err? && r.error.Unavailable?) <==> events[p].who == who && !LastSetActive(events, p, id, who))
              && (r.Err? && r.error.Unavailable? ==> StateSet(events, p, id, who, r.error.state))
              && (r == Err(NoKey) <==> && events[p].who == who && LastSetActive(events, p, id, who)
                                       && Asked(events, p, id, who, CryptographicallyErased))
              && (r == Err(NoCipher) <==> && events[p].who == who && LastSetActive(events, p, id, who)
                                          && !Asked(events, p, id, who, CryptographicallyErased)
                                          && Asked(events, p, id, who, LocalDeleted))
              && r != Err(DecryptFailed) && r != Err(Mismatch)
  {
    ReadFollowsHistory(hash, root, events, v, who, id);
    LifeMeans(events, id);
    StateMeans(events, id);
  }

  // ----- other objects -----

  predicate Concerns(e: Event, id: string) {
    match e
    case PutCall(_, _, i, _, _) => i == id
    case LifeCall(_, i, _, _) => i == id
    case MoveCall(_) => false
  }

  function Only(events: seq<Event>, id: string): seq<Event>
    decreases |events|
  {
    if events == [] then []
    else Only(events[..|events| - 1], id) + if Concerns(events[|events| - 1], id) then [events[|events| - 1]] else []
  }

  lemma {:induction false} OnlyItsOwnEvents(events: seq<Event>, id: string)
    ensures LifeOf(events, id) == LifeOf(Only(events, id), id)
    decreases |events|
  {
    if events != [] {
      var n := |events| - 1;
      OnlyItsOwnEvents(events[..n], id);
      if Concerns(events[n], id) {
        var o := Only(events[..n], id);
        assert (o + [events[n]])[..|o|] == o;
      } else {
        assert Only(events, id) == Only(events[..n], id);
      }
    }
  }

  /** Two runs that agree on one object's own calls answer reads of it alike, wherever their vaults were moved. */
  lemma {:induction false} OthersAndMovesDoNotMatter(hash: Bytes -> string, root1: string, run1: seq<Event>, v1: Vault,
                                                     root2: string, run2: seq<Event>, v2: Vault, who: string,
                                                     id: string)
    requires After(hash, root1, run1, v1) && After(hash, root2, run2, v2) && Only(run1, id) == Only(run2, id)
    ensures Read(hash, v1, who, id) == Read(hash, v2, who, id)
  {
    ReadFollowsHistory(hash, root1, run1, v1, who, id);
    ReadFollowsHistory(hash, root2, run2, v2, who, id);
    OnlyItsOwnEvents(run1, id);
    OnlyItsOwnEvents(run2, id);
  }
}
