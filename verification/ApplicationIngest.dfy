/**
 Ingest of application envelopes: an idempotency table in front of registries that only grow. A call may
 raise in any of its writes; budget says how many of them succeed before one raises.
 */
module ApplicationIngest {
  import opened Prelude
  import opened JsonValue
  import opened CanonicalOrder
  import opened CanonicalJson
  import opened SameValueFacts

  /**
   hash: SHA-256 in hex. text: Python's str() on what is not a text. strip, lower, upper: the string methods.
   */
  datatype Host = Host(application: string, organization: string, hash: Bytes -> string, text: Json -> string,
                       strip: string -> string, lower: string -> string, upper: string -> string)

  const ASSET_SCHEMA := "entity-btg-app-ingest-envelope-v1"
  const EVENT_SCHEMA := "entity-btg-app-event-envelope-v1"
  const ASSET_KINDS := {"SOFTWARE", "DATA", "MODEL", "KNOWLEDGE", "EVIDENCE"}
  const EVENT_PREFIXES := ["application.", "data.", "model.", "knowledge.", "software.", "evidence."]
  const FORBIDDEN_TOKENS :=
    ["ownership", "licence", "license", "settlement", "payment", "capital", "authority", "consent", "rights.verify",
     "commodity"]

  /** What a call returns; the numbers are places in the registries. */
  datatype Outcome =
    | Ingested(asset: nat, claim: Option<nat>, receipt: Option<nat>, derivations: seq<nat>, event: nat)
    | Recorded(event: nat)

  datatype Failure =
    | WrongSchema | WrongApplication | WrongOrganization | NoKey | KeyReused | Unauthorized | RawContent
    | BadKind | BadDigest | BadEventType | BadClaim | BadContributors | BadParents | WriteFailed

  datatype Answer = Fresh(result: Outcome) | Replay(result: Outcome) | Raised(failure: Failure)

  datatype Memo = Memo(digest: string, result: Outcome)

  datatype State = State(table: map<string, Memo>, assets: nat, claims: nat, receipts: nat, derivations: nat,
                         ledger: nat)

  datatype Call = Call(ingest: bool, envelope: Entries, authorized: bool, budget: nat)

  const EMPTY := State(map[], 0, 0, 0, 0, 0)

  /** str(envelope.get(field) or "") */
  function Field(h: Host, c: Call, field: string): string {
    var v := Get(c.envelope, field);
    if !Truthy(v) then "" else if v.Str? then v.s else h.text(v)
  }

  function KeyOf(h: Host, c: Call): string { h.strip(Field(h, c, "idempotency_key")) }

  /** token in s */
  predicate Within(token: string, s: string) { exists i :: 0 <= i <= |s| && FoundAt(token, s, i) }

  predicate FoundAt(token: string, s: string, i: nat) { i + |token| <= |s| && s[i..i + |token|] == token }

  predicate EventTypeOk(eventType: string) {
    && (exists i :: 0 <= i < |EVENT_PREFIXES| && EVENT_PREFIXES[i] <= eventType)
    && !exists i :: 0 <= i < |FORBIDDEN_TOKENS| && Within(FORBIDDEN_TOKENS[i], eventType)
  }

  predicate Hex64(digest: string) {
    |digest| == 64 && forall i :: 0 <= i < 64 ==> '0' <= digest[i] <= '9' || 'a' <= digest[i] <= 'f'
  }

  function DigestOf(h: Host, c: Call): string { h.hash(Canon(Obj(c.envelope))) }

  function CheckCommon(h: Host, c: Call): Option<Failure> {
    if Get(c.envelope, "schema") != Str(if c.ingest then ASSET_SCHEMA else EVENT_SCHEMA) then Some(WrongSchema)
    else if Get(c.envelope, "application_entity_id") != Str(h.application) then Some(WrongApplication)
    else if Get(c.envelope, "organization_entity_id") != Str(h.organization) then Some(WrongOrganization)
    else if KeyOf(h, c) == "" || |KeyOf(h, c)| > 256 then Some(NoKey)
    else None
  }

  function CheckContent(h: Host, c: Call): Option<Failure> {
    if !c.authorized then Some(Unauthorized)
    else if Get(c.envelope, if c.ingest then "raw_content_included" else "raw_payload_included") != Bool(false)
    then Some(RawContent)
    else if c.ingest && h.upper(Field(h, c, "asset_kind")) !in ASSET_KINDS then Some(BadKind)
    else if !c.ingest && !EventTypeOk(h.lower(Field(h, c, "event_type"))) then Some(BadEventType)
    else if !Hex64(h.lower(Field(h, c, if c.ingest then "content_sha256" else "payload_sha256"))) then Some(BadDigest)
    else None
  }

  function ClaimOf(c: Call): Json { Get(c.envelope, "explicit_rights_claim") }

  predicate ClaimComplete(claim: Json) {
    && claim.Obj? && Truthy(Get(claim.entries, "legal_basis")) && Truthy(Get(claim.entries, "right_type"))
    && Truthy(Get(claim.entries, "evidence")) && Get(claim.entries, "evidence").Obj?
    && (Truthy(Get(claim.entries, "scope")) ==> Get(claim.entries, "scope").Obj?)
  }

  function Contributors(c: Call): Json { Get(c.envelope, "contributors") }

  /** A list of dicts. */
  predicate ContributorsOk(v: Json) { v.Arr? && forall i :: 0 <= i < |v.items| ==> v.items[i].Obj? }

  function ParentIds(c: Call): Json { Get(c.envelope, "parent_asset_ids") }

  /** A value a loop can walk: a list, the characters of a text or the keys of a dict; nothing counts as empty. */
  predicate Iterable(v: Json) { !Truthy(v) || v.Arr? || v.Str? || v.Obj? }

  function Parents(c: Call): nat {
    match ParentIds(c)
    case Arr(items) => |items|
    case Str(s) => |s|
    case Obj(es) => |es|
    case _ => 0
  }

  // ----- the writes of one ingest, in order -----

  /** Writes already made and the failure that stopped them, if any. */
  datatype Progress = Progress(s: State, left: nat, failed: Option<Failure>)

  function Start(s: State, budget: nat): Progress { Progress(s, budget, None) }

  /** One more write: s' if the budget lasts. */
  function Write(p: Progress, s': State): Progress {
    if p.failed.Some? then p
    else if p.left == 0 then p.(failed := Some(WriteFailed))
    else Progress(s', p.left - 1, None)
  }

  function Guard(p: Progress, ok: bool, f: Failure): Progress {
    if p.failed.None? && !ok then p.(failed := Some(f)) else p
  }

  function WriteParents(p: Progress, n: nat): Progress
    decreases n
  {
    if n == 0 then p else WriteParents(Write(p, p.s.(derivations := p.s.derivations + 1)), n - 1)
  }

  function WriteClaim(c: Call, p: Progress): Progress {
    if !Truthy(ClaimOf(c)) then p
    else
      var q := Guard(p, ClaimComplete(ClaimOf(c)), BadClaim);
      Write(q, q.s.(claims := q.s.claims + 1))
  }

  function WriteReceipt(c: Call, p: Progress): Progress {
    if !Truthy(Contributors(c)) then p
    else
      var q := Guard(p, ContributorsOk(Contributors(c)), BadContributors);
      Write(q, q.s.(receipts := q.s.receipts + 1))
  }

  function WriteDerivations(c: Call, p: Progress): Progress {
    WriteParents(Guard(p, Iterable(ParentIds(c)), BadParents), Parents(c))
  }

  /** Asset, claim, receipt, derivations and ledger entry. */
  function AssetWrites(c: Call, s: State): Progress {
    var registered := Write(Start(s, c.budget), s.(assets := s.assets + 1));
    var derived := WriteDerivations(c, WriteReceipt(c, WriteClaim(c, registered)));
    Write(derived, derived.s.(ledger := derived.s.ledger + 1))
  }

  function EventWrites(c: Call, s: State): Progress { Write(Start(s, c.budget), s.(ledger := s.ledger + 1)) }

  function Writes(c: Call, s: State): Progress { if c.ingest then AssetWrites(c, s) else EventWrites(c, s) }

  function ResultOf(c: Call, s: State): Outcome {
    if c.ingest then
      Ingested(s.assets, if Truthy(ClaimOf(c)) then Some(s.claims) else None,
               if Truthy(Contributors(c)) then Some(s.receipts) else None,
               Upto(s.derivations, Parents(c)), s.ledger)
    else Recorded(s.ledger)
  }

  function Upto(start: nat, n: nat): seq<nat>
    decreases n
  {
    if n == 0 then [] else [start] + Upto(start + 1, n - 1)
  }

  /** ingest_asset and record_event: the state after the call and what the caller sees. */
  function Handle(h: Host, s: State, c: Call): (State, Answer) {
    if CheckCommon(h, c).Some? then (s, Raised(CheckCommon(h, c).value))
    else
      var key := KeyOf(h, c);
      if key in s.table then
        if s.table[key].digest != DigestOf(h, c) then (s, Raised(KeyReused)) else (s, Replay(s.table[key].result))
      else if CheckContent(h, c).Some? then (s, Raised(CheckContent(h, c).value))
      else
        var p := Writes(c, s);
        if p.failed.Some? then (p.s, Raised(p.failed.value))
        else if p.left == 0 then (p.s, Raised(WriteFailed))
        else
          var result := ResultOf(c, s);
          (p.s.(table := p.s.table[key := Memo(DigestOf(h, c), result)]), Fresh(result))
  }

  class BTGApplicationSDK {
    const h: Host
    var table: map<string, Memo>
    var assets: nat
    var claims: nat
    var receipts: nat
    var derivations: nat
    var ledger: nat

    ghost function Value(): State
      reads this
    {
      State(table, assets, claims, receipts, derivations, ledger)
    }

    constructor (h: Host)
      ensures this.h == h && Value() == EMPTY
    {
      this.h := h;
      table, assets, claims, receipts, derivations, ledger := map[], 0, 0, 0, 0, 0;
    }

    method ReplayOrNone(c: Call) returns (r: Option<Answer>)
      ensures r == if KeyOf(h, c) !in table then None
                   else Some(if table[KeyOf(h, c)].digest != DigestOf(h, c) then Raised(KeyReused)
                             else Replay(table[KeyOf(h, c)].result))
    {
      var key := KeyOf(h, c);
      if key !in table { return None; }
      if table[key].digest != DigestOf(h, c) { return Some(Raised(KeyReused)); }
      r := Some(Replay(table[key].result));
    }

    method AddDerivations(n: nat, budget: nat) returns (left: nat, failed: bool, made: seq<nat>)
      modifies this`derivations
      ensures WriteParents(Progress(old(Value()), budget, None), n)
              == Progress(Value(), left, if failed then Some(WriteFailed) else None)
      ensures !failed ==> made == Upto(old(derivations), n)
    {
      left, made := budget, [];
      for i := 0 to n
        invariant WriteParents(Progress(old(Value()), budget, None), n)
                  == WriteParents(Progress(Value(), left, None), n - i)
        invariant derivations == old(derivations) + i
        invariant Upto(old(derivations), n) == made + Upto(derivations, n - i)
      {
        if left == 0 {
          FailedStays(Progress(Value(), 0, Some(WriteFailed)), n - i - 1);
          return left, true, made;
        }
        made := made + [derivations];
        derivations, left := derivations + 1, left - 1;
      }
      failed := false;
    }

    method AddClaim(c: Call, budget: nat) returns (failed: Option<Failure>, left: nat, claim: Option<nat>)
      modifies this`claims
      ensures WriteClaim(c, Progress(old(Value()), budget, None)) == Progress(Value(), left, failed)
      ensures failed.None? ==> claim == if Truthy(ClaimOf(c)) then Some(old(claims)) else None
    {
      failed, left, claim := None, budget, None;
      if Truthy(ClaimOf(c)) {
        if !ClaimComplete(ClaimOf(c)) { return Some(BadClaim), left, claim; }
        if left == 0 { return Some(WriteFailed), left, claim; }
        claim := Some(claims);
        claims, left := claims + 1, left - 1;
      }
    }

    method AddReceipt(c: Call, budget: nat) returns (failed: Option<Failure>, left: nat, receipt: Option<nat>)
      modifies this`receipts
      ensures WriteReceipt(c, Progress(old(Value()), budget, None)) == Progress(Value(), left, failed)
      ensures failed.None? ==> receipt == if Truthy(Contributors(c)) then Some(old(receipts)) else None
    {
      failed, left, receipt := None, budget, None;
      if Truthy(Contributors(c)) {
        if !ContributorsOk(Contributors(c)) { return Some(BadContributors), left, receipt; }
        if left == 0 { return Some(WriteFailed), left, receipt; }
        receipt := Some(receipts);
        receipts, left := receipts + 1, left - 1;
      }
    }

    method AddParents(c: Call, budget: nat) returns (failed: Option<Failure>, left: nat, made: seq<nat>)
      modifies this`derivations
      ensures WriteDerivations(c, Progress(old(Value()), budget, None)) == Progress(Value(), left, failed)
      ensures failed.None? ==> made == Upto(old(derivations), Parents(c))
    {
      failed, left, made := None, budget, [];
      if !Iterable(ParentIds(c)) {
        FailedStays(Progress(Value(), budget, Some(BadParents)), Parents(c));
        return Some(BadParents), left, made;
      }
      var stopped: bool;
      left, stopped, made := AddDerivations(Parents(c), budget);
      if stopped { failed := Some(WriteFailed); }
    }

    /** The writes in their order, up to the first that raises. */
    method WriteAsset(c: Call) returns (failed: Option<Failure>, left: nat, result: Outcome)
      modifies this
      ensures AssetWrites(c, old(Value())) == Progress(Value(), left, failed)
      ensures failed.None? && c.ingest ==> result == ResultOf(c, old(Value()))
    {
      result := Recorded(0);
      if c.budget == 0 {
        FailureEnds(c, Progress(Value(), 0, Some(WriteFailed)));
        return Some(WriteFailed), 0, result;
      }
      var asset, claim, receipt, made := assets, None, None, [];
      assets := assets + 1;
      failed, left, claim := AddClaim(c, c.budget - 1);
      if failed.None? {
        failed, left, receipt := AddReceipt(c, left);
        if failed.None? { failed, left, made := AddParents(c, left); }
      }
      if failed.Some? {
        FailureEnds(c, Progress(Value(), left, failed));
        return failed, left, result;
      }
      if left == 0 { return Some(WriteFailed), left, result; }
      result := Ingested(asset, claim, receipt, made, ledger);
      ledger, left := ledger + 1, left - 1;
    }

    method IngestAsset(c: Call) returns (a: Answer)
      requires c.ingest
      modifies this
      ensures (Value(), a) == Handle(h, old(Value()), c)
    {
      var invalid := CheckCommon(h, c);
      if invalid.Some? { return Raised(invalid.value); }
      var replay := ReplayOrNone(c);
      if replay.Some? { return replay.value; }
      var refused := CheckContent(h, c);
      if refused.Some? { return Raised(refused.value); }
      WritesLedger(c, Value());
      var failed, left, result := WriteAsset(c);
      if failed.Some? { return Raised(failed.value); }
      if left == 0 { return Raised(WriteFailed); }
      table := table[KeyOf(h, c) := Memo(DigestOf(h, c), result)];
      a := Fresh(result);
    }

    method RecordEvent(c: Call) returns (a: Answer)
      requires !c.ingest
      modifies this
      ensures (Value(), a) == Handle(h, old(Value()), c)
    {
      var invalid := CheckCommon(h, c);
      if invalid.Some? { return Raised(invalid.value); }
      var replay := ReplayOrNone(c);
      if replay.Some? { return replay.value; }
      var refused := CheckContent(h, c);
      if refused.Some? { return Raised(refused.value); }
      if c.budget == 0 { return Raised(WriteFailed); }
      var event := ledger;
      ledger := ledger + 1;
      if c.budget == 1 { return Raised(WriteFailed); }
      table := table[KeyOf(h, c) := Memo(DigestOf(h, c), Recorded(event))];
      a := Fresh(Recorded(event));
    }
  }

  lemma FailedStays(p: Progress, n: nat)
    requires p.failed.Some?
    ensures WriteParents(p, n) == p
    decreases n
  {
  }

  /** Nothing is written once a write has raised. */
  lemma {:induction false} FailureEnds(c: Call, p: Progress)
    requires p.failed.Some?
    ensures WriteClaim(c, p) == p && WriteReceipt(c, p) == p && WriteDerivations(c, p) == p
  {
    FailedStays(p, Parents(c));
  }

  // ----- runs -----

  /** The state after a run of calls and their answers. */
  function Run(h: Host, s: State, calls: seq<Call>): (State, seq<Answer>)
    decreases |calls|
  {
    if calls == [] then (s, [])
    else
      var (s1, a) := Handle(h, s, calls[0]);
      var (end, rest) := Run(h, s1, calls[1..]);
      (end, [a] + rest)
  }

  /** The call appended to the ledger and stopped before the key was remembered. */
  predicate Torn(h: Host, s: State, c: Call) {
    && CheckCommon(h, c).None? && KeyOf(h, c) !in s.table && CheckContent(h, c).None?
    && Writes(c, s).failed.None? && Writes(c, s).left == 0
  }

  /** How many calls of a run stopped between the ledger and the table. */
  function TornCalls(h: Host, s: State, calls: seq<Call>): nat
    decreases |calls|
  {
    if calls == [] then 0
    else (if Torn(h, s, calls[0]) then 1 else 0) + TornCalls(h, Handle(h, s, calls[0]).0, calls[1..])
  }

  lemma {:induction false} WritesLedger(c: Call, s: State)
    ensures Writes(c, s).s.table == s.table
    ensures Writes(c, s).s.ledger == s.ledger + if Writes(c, s).failed.None? then 1 else 0
  {
    var credited := WriteReceipt(c, WriteClaim(c, Write(Start(s, c.budget), s.(assets := s.assets + 1))));
    ParentsLedger(Guard(credited, Iterable(ParentIds(c)), BadParents), Parents(c));
  }

  lemma {:induction false} ParentsLedger(p: Progress, n: nat)
    ensures WriteParents(p, n).s.table == p.s.table && WriteParents(p, n).s.ledger == p.s.ledger
    ensures p.failed.Some? ==> WriteParents(p, n).failed.Some?
    decreases n
  {
    if n > 0 { ParentsLedger(Write(p, p.s.(derivations := p.s.derivations + 1)), n - 1); }
  }

  /** How one call moves the table and the ledger. */
  lemma {:induction false} HandleMoves(h: Host, s: State, c: Call)
    ensures var (s', a) := Handle(h, s, c);
            && (a.Fresh? ==> KeyOf(h, c) !in s.table && a.result.event == s.ledger && s'.ledger == s.ledger + 1
                             && s'.table == s.table[KeyOf(h, c) := Memo(DigestOf(h, c), a.result)])
            && (!a.Fresh? ==> s'.table == s.table && s'.ledger == s.ledger + if Torn(h, s, c) then 1 else 0)
            && (a.Replay? ==> s' == s)
            && (KeyOf(h, c) in s.table ==> s' == s)
  {
    WritesLedger(c, s);
  }

  /** Keys remembered plus torn calls account for every ledger entry. */
  lemma {:induction false} LedgerAccount(h: Host, s: State, calls: seq<Call>)
    ensures Run(h, s, calls).0.ledger - |Run(h, s, calls).0.table| == s.ledger - |s.table| + TornCalls(h, s, calls)
    decreases |calls|
  {
    if calls != [] {
      var (s1, a) := Handle(h, s, calls[0]);
      HandleMoves(h, s, calls[0]);
      LedgerAccount(h, s1, calls[1..]);
      if a.Fresh? { assert s1.table.Keys == s.table.Keys + {KeyOf(h, calls[0])}; }
    }
  }

  /** From an empty table, ledger entries equal remembered keys exactly when no call was torn. */
  lemma {:induction false} LedgerMatchesKeys(h: Host, calls: seq<Call>)
    ensures Run(h, EMPTY, calls).0.ledger == |Run(h, EMPTY, calls).0.table| <==> TornCalls(h, EMPTY, calls) == 0
  {
    LedgerAccount(h, EMPTY, calls);
  }

  /** Memos are never changed or dropped. */
  lemma {:induction false} MemosPersist(h: Host, s: State, calls: seq<Call>, key: string)
    requires key in s.table
    ensures key in Run(h, s, calls).0.table && Run(h, s, calls).0.table[key] == s.table[key]
    decreases |calls|
  {
    if calls != [] {
      HandleMoves(h, s, calls[0]);
      MemosPersist(h, Handle(h, s, calls[0]).0, calls[1..], key);
    }
  }

  /**
   After a fresh result, and any later calls, its key answers: a repeat of equal content replays, anything else
   raises.
   */
  lemma {:induction false} KeyIsSettled(h: Host, s: State, c: Call, later: seq<Call>, d: Call)
    requires WellFormed(Obj(c.envelope)) && WellFormed(Obj(d.envelope))
    requires Handle(h, s, c).1.Fresh? && Addressed(h, d) && KeyOf(h, d) == KeyOf(h, c)
    ensures var end := Run(h, Handle(h, s, c).0, later).0;
            var (end', a) := Handle(h, end, d);
            && end' == end
            && (SameValue(Obj(c.envelope), Obj(d.envelope)) ==> a == Replay(Handle(h, s, c).1.result))
            && (!SameValue(Obj(c.envelope), Obj(d.envelope)) ==>
                  || a == Raised(KeyReused)
                  || (Canon(Obj(c.envelope)) != Canon(Obj(d.envelope)) && DigestOf(h, c) == DigestOf(h, d)))
  {
    HandleMoves(h, s, c);
    MemosPersist(h, Handle(h, s, c).0, later, KeyOf(h, c));
    CanonEquality(Obj(c.envelope), Obj(d.envelope));
  }

  /** In every run, no key gets two fresh results. */
  lemma {:induction false} FreshOnce(h: Host, s: State, calls: seq<Call>, i: nat, j: nat)
    requires i < j < |calls| && KeyOf(h, calls[i]) == KeyOf(h, calls[j])
    requires |Run(h, s, calls).1| == |calls| && Run(h, s, calls).1[i].Fresh?
    ensures !Run(h, s, calls).1[j].Fresh?
    decreases |calls|
  {
    var s1 := Handle(h, s, calls[0]).0;
    AnswersCounted(h, s1, calls[1..]);
    if i > 0 {
      FreshOnce(h, s1, calls[1..], i - 1, j - 1);
    } else {
      HandleMoves(h, s, calls[0]);
      UsedKeyNotFresh(h, s1, calls[1..], j - 1);
    }
  }

  lemma {:induction false} AnswersCounted(h: Host, s: State, calls: seq<Call>)
    ensures |Run(h, s, calls).1| == |calls|
    decreases |calls|
  {
    if calls != [] { AnswersCounted(h, Handle(h, s, calls[0]).0, calls[1..]); }
  }

  lemma {:induction false} UsedKeyNotFresh(h: Host, s: State, calls: seq<Call>, j: nat)
    requires j < |calls| && KeyOf(h, calls[j]) in s.table && |Run(h, s, calls).1| == |calls|
    ensures !Run(h, s, calls).1[j].Fresh?
    decreases |calls|
  {
    HandleMoves(h, s, calls[0]);
    var s1 := Handle(h, s, calls[0]).0;
    AnswersCounted(h, s1, calls[1..]);
    if j > 0 { UsedKeyNotFresh(h, s1, calls[1..], j - 1); }
  }

  /** Remembered results point at different ledger entries. */
  ghost predicate OwnEntries(s: State) {
    && (forall k :: k in s.table ==> s.table[k].result.event < s.ledger)
    && (forall k, l :: k in s.table && l in s.table && k != l ==> s.table[k].result.event != s.table[l].result.event)
  }

  lemma {:induction false} EntriesStayOwn(h: Host, s: State, calls: seq<Call>)
    requires OwnEntries(s)
    ensures OwnEntries(Run(h, s, calls).0)
    decreases |calls|
  {
    if calls != [] {
      HandleMoves(h, s, calls[0]);
      EntriesStayOwn(h, Handle(h, s, calls[0]).0, calls[1..]);
    }
  }

  // ----- which calls write -----

  /** The application's own schema and ids, and a key of 1 to 256 characters. */
  ghost predicate Addressed(h: Host, c: Call) {
    && Get(c.envelope, "schema")
       == Str(if c.ingest then "entity-btg-app-ingest-envelope-v1" else "entity-btg-app-event-envelope-v1")
    && Get(c.envelope, "application_entity_id") == Str(h.application)
    && Get(c.envelope, "organization_entity_id") == Str(h.organization)
    && 1 <= |h.strip(Field(h, c, "idempotency_key"))| <= 256
  }

  /** Allowed by the authorizer and declared to carry no raw content. */
  ghost predicate Permitted(c: Call) {
    c.authorized && Get(c.envelope, if c.ingest then "raw_content_included" else "raw_payload_included") == Bool(false)
  }

  /** One of the five kinds; for an event, a type under an allowed prefix that mentions no reserved subject. */
  ghost predicate Named(h: Host, c: Call) {
    if c.ingest then h.upper(Field(h, c, "asset_kind")) in {"SOFTWARE", "DATA", "MODEL", "KNOWLEDGE", "EVIDENCE"}
    else
      var t := h.lower(Field(h, c, "event_type"));
      && (|| "application." <= t || "data." <= t || "model." <= t || "knowledge." <= t || "software." <= t
          || "evidence." <= t)
      && !exists token :: token in {"ownership", "licence", "license", "settlement", "payment", "capital", "authority",
                                    "consent", "rights.verify", "commodity"} && Mentions(t, token)
  }

  ghost predicate Mentions(t: string, token: string) { exists before, after :: t == before + token + after }

  /** A digest of 64 hexadecimal digits. */
  ghost predicate IsDigest(d: string) { |d| == 64 && forall i :: 0 <= i < 64 ==> d[i] in "0123456789abcdef" }

  ghost predicate Digested(h: Host, c: Call) {
    if c.ingest then IsDigest(h.lower(Field(h, c, "content_sha256")))
    else IsDigest(h.lower(Field(h, c, "payload_sha256")))
  }

  /** What a call on a new key must satisfy before its first write. */
  ghost predicate Admissible(h: Host, s: State, c: Call) {
    && Addressed(h, c) && h.strip(Field(h, c, "idempotency_key")) !in s.table
    && Permitted(c) && Named(h, c) && Digested(h, c)
  }

  ghost function One(b: bool): nat { if b then 1 else 0 }

  /** How many parents an ingest names: the elements, characters or keys that a loop over the field meets. */
  ghost function ParentCount(c: Call): nat {
    var ids := Get(c.envelope, "parent_asset_ids");
    if ids.Arr? then |ids.items| else if ids.Str? then |ids.s| else if ids.Obj? then |ids.entries| else 0
  }

  ghost predicate HasClaim(c: Call) { Truthy(Get(c.envelope, "explicit_rights_claim")) }

  ghost predicate HasContributors(c: Call) { Truthy(Get(c.envelope, "contributors")) }

  /** How many writes a call makes when none of them raises, the remembered key not counted. */
  ghost function WriteCount(c: Call): nat {
    if c.ingest then 2 + One(HasClaim(c)) + One(HasContributors(c)) + ParentCount(c) else 1
  }

  /** A claim with a legal basis, a right type and evidence; evidence and scope are dicts. */
  ghost predicate ClaimInOrder(claim: Json) {
    && claim.Obj?
    && var right, basis := Get(claim.entries, "right_type"), Get(claim.entries, "legal_basis");
    && var evidence, scope := Get(claim.entries, "evidence"), Get(claim.entries, "scope");
    && Truthy(right) && Truthy(basis) && evidence.Obj? && evidence.entries != [] && (scope.Obj? || !Truthy(scope))
  }

  /** A list of dicts. */
  ghost predicate DictList(v: Json) { v.Arr? && forall i :: 0 <= i < |v.items| ==> v.items[i].Obj? }

  /** Nothing, a list, a text or a dict. */
  ghost predicate Walkable(v: Json) { !(v.Num? && v.n != 0) && v != Bool(true) }

  /** What the writes of an ingest check between them. */
  ghost predicate PartsOk(c: Call) {
    c.ingest ==>
      && (HasClaim(c) ==> ClaimInOrder(Get(c.envelope, "explicit_rights_claim")))
      && (HasContributors(c) ==> DictList(Get(c.envelope, "contributors")))
      && Walkable(Get(c.envelope, "parent_asset_ids"))
  }

  /** A field reads as its text, and as nothing when it is missing, null, zero or empty. */
  lemma FieldReads(h: Host, c: Call, field: string)
    ensures var v := Get(c.envelope, field);
            && (v.Str? ==> Field(h, c, field) == v.s)
            && (v in {Null, Bool(false), Num(0), Arr([]), Obj([])} ==> Field(h, c, field) == "")
  {
  }

  lemma {:induction false} WithinExactly(token: string, t: string)
    ensures Within(token, t) <==> Mentions(t, token)
  {
    if before, after :| t == before + token + after { assert FoundAt(token, t, |before|); }
    if i :| 0 <= i <= |t| && FoundAt(token, t, i) { assert t == t[..i] + token + t[i + |token|..]; }
  }

  lemma {:induction false} TokensExactly(t: string)
    ensures (exists k :: 0 <= k < |FORBIDDEN_TOKENS| && Within(FORBIDDEN_TOKENS[k], t))
            <==> exists token :: token in {"ownership", "licence", "license", "settlement", "payment", "capital",
                                           "authority", "consent", "rights.verify", "commodity"} && Mentions(t, token)
  {
    var tokens := {"ownership", "licence", "license", "settlement", "payment", "capital", "authority", "consent",
                   "rights.verify", "commodity"};
    if k :| 0 <= k < |FORBIDDEN_TOKENS| && Within(FORBIDDEN_TOKENS[k], t) {
      TokenListed(k);
      WithinExactly(FORBIDDEN_TOKENS[k], t);
    }
    if token :| token in tokens && Mentions(t, token) {
      TokenPlace(token);
      WithinExactly(token, t);
    }
  }

  lemma {:induction false} TokenListed(k: nat)
    requires k < |FORBIDDEN_TOKENS|
    ensures FORBIDDEN_TOKENS[k] in {"ownership", "licence", "license", "settlement", "payment", "capital", "authority",
                                    "consent", "rights.verify", "commodity"}
  {
  }

  lemma {:induction false} TokenPlace(token: string)
    requires token in {"ownership", "licence", "license", "settlement", "payment", "capital", "authority", "consent",
                       "rights.verify", "commodity"}
    ensures exists k :: 0 <= k < |FORBIDDEN_TOKENS| && FORBIDDEN_TOKENS[k] == token
  {
    var all := FORBIDDEN_TOKENS;
    assert all[0] == "ownership" && all[1] == "licence" && all[2] == "license" && all[3] == "settlement";
    assert all[4] == "payment" && all[5] == "capital" && all[6] == "authority" && all[7] == "consent";
    assert all[8] == "rights.verify" && all[9] == "commodity";
  }

  lemma {:induction false} PrefixesExactly(t: string)
    ensures (exists i :: 0 <= i < |EVENT_PREFIXES| && EVENT_PREFIXES[i] <= t)
            <==> || "application." <= t || "data." <= t || "model." <= t || "knowledge." <= t || "software." <= t
                 || "evidence." <= t
  {
    var all := EVENT_PREFIXES;
    assert all[0] == "application." && all[1] == "data." && all[2] == "model.";
    assert all[3] == "knowledge." && all[4] == "software." && all[5] == "evidence.";
  }

  lemma {:induction false} HexExactly(d: string)
    ensures Hex64(d) <==> IsDigest(d)
  {
    forall c: char ensures c in "0123456789abcdef" <==> '0' <= c <= '9' || 'a' <= c <= 'f' { HexDigit(c); }
  }

  lemma {:induction false} HexDigit(c: char)
    ensures c in "0123456789abcdef" <==> '0' <= c <= '9' || 'a' <= c <= 'f'
  {
    var digits := "0123456789abcdef";
    assert forall i :: 0 <= i < 10 ==> digits[i] as int == 48 + i;
    assert forall i :: 10 <= i < 16 ==> digits[i] as int == 87 + i;
    if '0' <= c <= '9' { assert digits[c as int - 48] == c; }
    if 'a' <= c <= 'f' { assert digits[c as int - 87] == c; }
  }

  lemma {:induction false} DescribedExactly(h: Host, c: Call)
    ensures c.ingest ==>
              && (h.upper(Field(h, c, "asset_kind")) in ASSET_KINDS <==> Named(h, c))
              && (Hex64(h.lower(Field(h, c, "content_sha256"))) <==> Digested(h, c))
    ensures !c.ingest ==>
              && (EventTypeOk(h.lower(Field(h, c, "event_type"))) <==> Named(h, c))
              && (Hex64(h.lower(Field(h, c, "payload_sha256"))) <==> Digested(h, c))
  {
    if c.ingest {
      HexExactly(h.lower(Field(h, c, "content_sha256")));
    } else {
      HexExactly(h.lower(Field(h, c, "payload_sha256")));
      PrefixesExactly(h.lower(Field(h, c, "event_type")));
      TokensExactly(h.lower(Field(h, c, "event_type")));
    }
  }

  /** The checks before the first write pass exactly for these calls, and a call refused names the first rule broken. */
  lemma {:induction false} ChecksExactly(h: Host, c: Call)
    ensures var e, common := c.envelope, CheckCommon(h, c);
            var schema := if c.ingest then "entity-btg-app-ingest-envelope-v1" else "entity-btg-app-event-envelope-v1";
            && (common.None? <==> Addressed(h, c))
            && (common == Some(WrongSchema) <==> Get(e, "schema") != Str(schema))
            && (common == Some(WrongApplication)
                <==> Get(e, "schema") == Str(schema) && Get(e, "application_entity_id") != Str(h.application))
            && (common == Some(WrongOrganization)
                <==> && Get(e, "schema") == Str(schema) && Get(e, "application_entity_id") == Str(h.application)
                     && Get(e, "organization_entity_id") != Str(h.organization))
            && common in {None, Some(WrongSchema), Some(WrongApplication), Some(WrongOrganization), Some(NoKey)}
    ensures var content := CheckContent(h, c);
            && (content.None? <==> Permitted(c) && Named(h, c) && Digested(h, c))
            && (content == Some(Unauthorized) <==> !c.authorized)
            && (content == Some(RawContent) <==> c.authorized && !Permitted(c))
            && (content == Some(BadKind) <==> Permitted(c) && c.ingest && !Named(h, c))
            && (content == Some(BadEventType) <==> Permitted(c) && !c.ingest && !Named(h, c))
            && (content == Some(BadDigest) <==> Permitted(c) && Named(h, c) && !Digested(h, c))
  {
    DescribedExactly(h, c);
  }

  /** Before any write: which calls raise what, which replay, and that neither changes anything. */
  lemma {:induction false} RefusedExactly(h: Host, s: State, c: Call)
    ensures var (s', a) := Handle(h, s, c);
            var key := h.strip(Field(h, c, "idempotency_key"));
            && (!Addressed(h, c) ==> CheckCommon(h, c).Some? && s' == s && a == Raised(CheckCommon(h, c).value))
            && (Addressed(h, c) && key in s.table ==>
                  && s' == s
                  && a == if s.table[key].digest == h.hash(Canon(Obj(c.envelope))) then Replay(s.table[key].result)
                          else Raised(KeyReused))
            && (Addressed(h, c) && key !in s.table && !Admissible(h, s, c) ==>
                  CheckContent(h, c).Some? && s' == s && a == Raised(CheckContent(h, c).value))
  {
    ChecksExactly(h, c);
  }

  // how far the writes of a call got

  /** How much of n the budget covers. */
  ghost function Covered(budget: int, n: nat): nat { if budget <= 0 then 0 else if budget >= n then n else budget }

  lemma {:induction false} ParentsCount(p: Progress, n: nat)
    ensures p.failed.None? ==>
              WriteParents(p, n)
              == Progress(p.s.(derivations := p.s.derivations + Covered(p.left, n)), p.left - Covered(p.left, n),
                          if p.left >= n then None else Some(WriteFailed))
    ensures p.failed.Some? ==> WriteParents(p, n) == p
    decreases n
  {
    if n > 0 { ParentsCount(Write(p, p.s.(derivations := p.s.derivations + 1)), n - 1); }
  }

  lemma {:induction false} PartsExactly(c: Call)
    ensures ClaimComplete(ClaimOf(c)) <==> ClaimInOrder(Get(c.envelope, "explicit_rights_claim"))
    ensures ContributorsOk(Contributors(c)) <==> DictList(Get(c.envelope, "contributors"))
    ensures Iterable(ParentIds(c)) <==> Walkable(Get(c.envelope, "parent_asset_ids"))
    ensures ParentCount(c) == Parents(c)
  {
  }

  lemma {:induction false} CreditedInOrder(c: Call, s: State)
    requires c.ingest && PartsOk(c)
    ensures var b, claim, receipt := c.budget, One(HasClaim(c)), One(HasContributors(c));
            WriteReceipt(c, WriteClaim(c, Write(Start(s, b), s.(assets := s.assets + 1))))
            == Progress(State(s.table, s.assets + Covered(b, 1), s.claims + Covered(b - 1, claim),
                              s.receipts + Covered(b - 1 - claim, receipt), s.derivations, s.ledger),
                        b - Covered(b, 1 + claim + receipt),
                        if b >= 1 + claim + receipt then None else Some(WriteFailed))
  {
    PartsExactly(c);
  }

  /** An ingest with its parts in order makes its writes in the one order: asset, claim, receipt, parents, ledger. */
  lemma {:induction false} WritesInOrder(c: Call, s: State)
    requires c.ingest && PartsOk(c)
    ensures var s', b, claim, receipt := Writes(c, s).s, c.budget, One(HasClaim(c)), One(HasContributors(c));
            && s'.table == s.table && s'.assets == s.assets + Covered(b, 1)
            && s'.claims == s.claims + Covered(b - 1, claim)
            && s'.receipts == s.receipts + Covered(b - 1 - claim, receipt)
            && s'.derivations == s.derivations + Covered(b - 1 - claim - receipt, ParentCount(c))
            && s'.ledger == s.ledger + Covered(b - 1 - claim - receipt - ParentCount(c), 1)
  {
    PartsExactly(c);
    CreditedInOrder(c, s);
    ParentsCount(WriteReceipt(c, WriteClaim(c, Write(Start(s, c.budget), s.(assets := s.assets + 1)))), Parents(c));
  }

  /** A part out of order stops the writes right before it, with its own failure, if the budget lasts that far. */
  lemma {:induction false} PartFailures(c: Call, s: State)
    requires c.ingest && !PartsOk(c)
    ensures Writes(c, s).failed.Some? && Writes(c, s).s.table == s.table && Writes(c, s).s.ledger == s.ledger
    ensures Writes(c, s).s.assets == s.assets + Covered(c.budget, 1)
    ensures var claimOk := HasClaim(c) ==> ClaimInOrder(Get(c.envelope, "explicit_rights_claim"));
            var contributorsOk := HasContributors(c) ==> DictList(Get(c.envelope, "contributors"));
            var before := 1 + One(HasClaim(c));
            Writes(c, s).failed.value
            == if !claimOk then (if c.budget >= 1 then BadClaim else WriteFailed)
               else if !contributorsOk then (if c.budget >= before then BadContributors else WriteFailed)
               else if c.budget >= before + One(HasContributors(c)) then BadParents else WriteFailed
  {
    PartsExactly(c);
    var credited := WriteReceipt(c, WriteClaim(c, Write(Start(s, c.budget), s.(assets := s.assets + 1))));
    ParentsCount(Guard(credited, Iterable(ParentIds(c)), BadParents), Parents(c));
  }

  /**
   All writes succeed exactly when the parts are in order and the budget covers them; an ingest's asset comes first.
   */
  lemma {:induction false} WritesSucceed(c: Call, s: State)
    ensures Writes(c, s).failed.None? <==> PartsOk(c) && c.budget >= WriteCount(c)
    ensures Writes(c, s).failed.None? ==> Writes(c, s).left == c.budget - WriteCount(c)
    ensures Writes(c, s).s.assets == s.assets + if c.ingest && c.budget > 0 then 1 else 0
  {
    if c.ingest && PartsOk(c) {
      PartsExactly(c);
      CreditedInOrder(c, s);
      ParentsCount(WriteReceipt(c, WriteClaim(c, Write(Start(s, c.budget), s.(assets := s.assets + 1)))), Parents(c));
    } else if c.ingest {
      PartFailures(c, s);
    }
  }

  /**
   A call gets a fresh result exactly when it is admissible, its parts are in order and its writes and memo succeed.
   */
  lemma {:induction false} FreshExactly(h: Host, s: State, c: Call)
    ensures Handle(h, s, c).1.Fresh? <==> Admissible(h, s, c) && PartsOk(c) && c.budget > WriteCount(c)
    ensures Torn(h, s, c) <==> Admissible(h, s, c) && PartsOk(c) && c.budget == WriteCount(c)
  {
    ChecksExactly(h, c);
    WritesSucceed(c, s);
  }

  lemma {:induction false} UptoIs(start: nat, n: nat)
    ensures |Upto(start, n)| == n && forall i :: 0 <= i < n ==> Upto(start, n)[i] == start + i
    decreases n
  {
    if n > 0 { UptoIs(start + 1, n - 1); }
  }

  /** A fresh ingest adds one of everything it has, and its result names just what was added. */
  lemma {:induction false} FreshAsset(h: Host, s: State, c: Call)
    requires c.ingest && Admissible(h, s, c) && PartsOk(c) && c.budget > WriteCount(c)
    ensures var (s', a) := Handle(h, s, c);
            && a.Fresh? && a.result.Ingested?
            && s' == State(s.table[h.strip(Field(h, c, "idempotency_key"))
                                   := Memo(h.hash(Canon(Obj(c.envelope))), a.result)],
                           s.assets + 1, s.claims + One(HasClaim(c)), s.receipts + One(HasContributors(c)),
                           s.derivations + ParentCount(c), s.ledger + 1)
            && a.result.asset == s.assets && a.result.event == s.ledger
            && a.result.claim == (if HasClaim(c) then Some(s.claims) else None)
            && a.result.receipt == (if HasContributors(c) then Some(s.receipts) else None)
            && |a.result.derivations| == ParentCount(c)
            && forall i :: 0 <= i < ParentCount(c) ==> a.result.derivations[i] == s.derivations + i
  {
    FreshExactly(h, s, c);
    WritesInOrder(c, s);
    WritesSucceed(c, s);
    PartsExactly(c);
    ChecksExactly(h, c);
    UptoIs(s.derivations, Parents(c));
  }

  /** A fresh event adds a ledger entry and a remembered key. */
  lemma {:induction false} FreshEvent(h: Host, s: State, c: Call)
    requires !c.ingest && Admissible(h, s, c) && c.budget > 1
    ensures Handle(h, s, c)
            == (State(s.table[h.strip(Field(h, c, "idempotency_key"))
                              := Memo(h.hash(Canon(Obj(c.envelope))), Recorded(s.ledger))],
                      s.assets, s.claims, s.receipts, s.derivations, s.ledger + 1),
                Fresh(Recorded(s.ledger)))
  {
    ChecksExactly(h, c);
  }

  /** A call that raises leaves everything as it was exactly when it is not admissible or its first write fails. */
  lemma {:induction false} RaisedChangesNothing(h: Host, s: State, c: Call)
    requires Handle(h, s, c).1.Raised?
    ensures Handle(h, s, c).0 == s <==> !Admissible(h, s, c) || c.budget == 0
  {
    ChecksExactly(h, c);
    WritesSucceed(c, s);
    if Admissible(h, s, c) && c.budget == 0 && c.ingest { FailureEnds(c, Progress(s, 0, Some(WriteFailed))); }
  }

  /** Without authorization a call on a new key writes nothing and raises. */
  lemma UnauthorizedWritesNothing(h: Host, s: State, c: Call)
    requires !c.authorized && KeyOf(h, c) !in s.table
    ensures Handle(h, s, c).0 == s && Handle(h, s, c).1.Raised?
    ensures Addressed(h, c) ==> Handle(h, s, c).1 == Raised(Unauthorized)
  {
  }

  /** Strings as they come. */
  function ExampleHost(): Host { Host("app", "org", b => "", v => "", s => s, s => s, s => s) }

  function ZeroDigest(): (d: string)
    ensures |d| == 64 && forall i :: 0 <= i < 64 ==> d[i] == '0'
  {
    seq(64, i => '0')
  }

  function ExampleEvent(): Entries {
    [Entry("schema", Str(EVENT_SCHEMA)), Entry("application_entity_id", Str("app")),
     Entry("organization_entity_id", Str("org")), Entry("idempotency_key", Str("k")),
     Entry("raw_payload_included", Bool(false)), Entry("event_type", Str("data.x")),
     Entry("payload_sha256", Str(ZeroDigest()))]
  }

  ghost predicate EventValues(e: Entries) {
    && Get(e, "schema") == Str(EVENT_SCHEMA) && Get(e, "application_entity_id") == Str("app")
    && Get(e, "organization_entity_id") == Str("org") && Get(e, "idempotency_key") == Str("k")
    && Get(e, "raw_payload_included") == Bool(false) && Get(e, "event_type") == Str("data.x")
    && Get(e, "payload_sha256") == Str(ZeroDigest())
  }

  lemma {:induction false} ExampleEventHolds()
    ensures EventValues(ExampleEvent())
  {
    var keys := ["schema", "application_entity_id", "organization_entity_id", "idempotency_key", "raw_payload_included",
                 "event_type", "payload_sha256"];
    FieldsAt(ExampleEvent(), keys);
    assert keys[0] == "schema" && keys[1] == "application_entity_id" && keys[2] == "organization_entity_id";
    assert keys[3] == "idempotency_key" && keys[4] == "raw_payload_included" && keys[5] == "event_type";
    assert keys[6] == "payload_sha256";
  }

  lemma {:induction false} ZeroIsHex()
    ensures Hex64(ZeroDigest())
  {
  }

  lemma {:induction false} NoTokenIn(t: string)
    requires t == "data.x"
    ensures forall k :: 0 <= k < |FORBIDDEN_TOKENS| ==> !Within(FORBIDDEN_TOKENS[k], t)
  {
    forall k | 0 <= k < |FORBIDDEN_TOKENS| ensures !Within(FORBIDDEN_TOKENS[k], t) {
      assert |FORBIDDEN_TOKENS[k]| > |t|;
    }
  }

  lemma {:induction false} EventIsAdmissible(e: Entries, s: State, budget: nat)
    requires EventValues(e) && "k" !in s.table
    ensures Admissible(ExampleHost(), s, Call(false, e, true, budget))
    ensures KeyOf(ExampleHost(), Call(false, e, true, budget)) == "k"
  {
    ZeroIsHex();
    NoTokenIn("data.x");
    assert EVENT_PREFIXES[1] == "data." <= "data.x";
    DescribedExactly(ExampleHost(), Call(false, e, true, budget));
  }

  lemma {:induction false} TornEvent(h: Host, s: State, c: Call)
    requires !c.ingest && Admissible(h, s, c) && c.budget == 1
    ensures Handle(h, s, c) == (s.(ledger := s.ledger + 1), Raised(WriteFailed)) && Torn(h, s, c)
  {
    ChecksExactly(h, c);
  }

  lemma {:induction false} RunOne(h: Host, s: State, c: Call)
    ensures Run(h, s, [c]).0 == Handle(h, s, c).0 && TornCalls(h, s, [c]) == if Torn(h, s, c) then 1 else 0
  {
    assert [c][1..] == [];
  }

  lemma {:induction false} TornWhen(h: Host, c: Call)
    requires !c.ingest && Admissible(h, EMPTY, c) && c.budget == 1
    requires Admissible(h, EMPTY.(ledger := 1), c.(budget := 2)) && KeyOf(h, c) == "k"
    ensures Run(h, EMPTY, [c]).0 == EMPTY.(ledger := 1) && TornCalls(h, EMPTY, [c]) == 1
    ensures Handle(h, EMPTY.(ledger := 1), c.(budget := 2))
            == (State(map["k" := Memo(DigestOf(h, c), Recorded(1))], 0, 0, 0, 0, 2), Fresh(Recorded(1)))
  {
    TornEvent(h, EMPTY, c);
    RunOne(h, EMPTY, c);
    FreshEvent(h, EMPTY.(ledger := 1), c.(budget := 2));
  }

  /**
   A torn call exists: an event whose ledger entry is written and whose key is not, which the same call then repeats.
   */
  lemma {:induction false} TornCallHappens() returns (h: Host, c: Call)
    ensures Run(h, EMPTY, [c]).0 == State(map[], 0, 0, 0, 0, 1) && TornCalls(h, EMPTY, [c]) == 1
    ensures var again := c.(budget := 2);
            Handle(h, Run(h, EMPTY, [c]).0, again)
            == (State(map["k" := Memo(DigestOf(h, c), Recorded(1))], 0, 0, 0, 0, 2), Fresh(Recorded(1)))
  {
    var e := ExampleEvent();
    ExampleEventHolds();
    h, c := ExampleHost(), Call(false, e, true, 1);
    EventIsAdmissible(e, EMPTY, 1);
    EventIsAdmissible(e, EMPTY.(ledger := 1), 2);
    TornWhen(h, c);
  }

  function ExampleClaim(): Entries {
    [Entry("right_type", Str("OWNER")), Entry("legal_basis", Str("contract")),
     Entry("evidence", Obj([Entry("ref", Str("7"))]))]
  }

  /** An asset as the envelope builder writes it, with a claim, a contributor and two parents. */
  function ExampleAsset(): Entries {
    [Entry("schema", Str(ASSET_SCHEMA)), Entry("application_entity_id", Str("app")),
     Entry("organization_entity_id", Str("org")), Entry("idempotency_key", Str("k")),
     Entry("content_sha256", Str(ZeroDigest())), Entry("asset_kind", Str("DATA")),
     Entry("explicit_rights_claim", Obj(ExampleClaim())), Entry("contributors", Arr([Obj([])])),
     Entry("parent_asset_ids", Arr([Str("p"), Str("q")])), Entry("raw_content_included", Bool(false))]
  }

  const ASSET_FIELDS :=
    ["schema", "application_entity_id", "organization_entity_id", "idempotency_key", "content_sha256", "asset_kind",
     "explicit_rights_claim", "contributors", "parent_asset_ids", "raw_content_included"]

  lemma {:induction false} AssetFieldsDistinct()
    ensures Distinct(ASSET_FIELDS)
  {
  }

  ghost predicate AssetValues(e: Entries) {
    && Get(e, "schema") == Str(ASSET_SCHEMA) && Get(e, "application_entity_id") == Str("app")
    && Get(e, "organization_entity_id") == Str("org") && Get(e, "idempotency_key") == Str("k")
    && Get(e, "content_sha256") == Str(ZeroDigest()) && Get(e, "asset_kind") == Str("DATA")
    && Get(e, "explicit_rights_claim") == Obj(ExampleClaim()) && Get(e, "contributors") == Arr([Obj([])])
    && Get(e, "parent_asset_ids") == Arr([Str("p"), Str("q")]) && Get(e, "raw_content_included") == Bool(false)
  }

  lemma {:induction false} AssetHolds(e: Entries)
    requires Spells(e, ASSET_FIELDS) && e == ExampleAsset()
    ensures AssetValues(e)
  {
    AssetFieldsDistinct();
    FieldsAt(e, ASSET_FIELDS);
    assert ASSET_FIELDS[0] == "schema" && ASSET_FIELDS[1] == "application_entity_id";
    assert ASSET_FIELDS[2] == "organization_entity_id" && ASSET_FIELDS[3] == "idempotency_key";
    assert ASSET_FIELDS[4] == "content_sha256" && ASSET_FIELDS[5] == "asset_kind";
    assert ASSET_FIELDS[6] == "explicit_rights_claim" && ASSET_FIELDS[7] == "contributors";
    assert ASSET_FIELDS[8] == "parent_asset_ids" && ASSET_FIELDS[9] == "raw_content_included";
  }

  lemma {:induction false} ExampleClaimInOrder()
    ensures ClaimInOrder(Obj(ExampleClaim()))
  {
    var keys := ["right_type", "legal_basis", "evidence"];
    FieldsAt(ExampleClaim(), keys);
    assert keys[0] == "right_type" && keys[1] == "legal_basis" && keys[2] == "evidence";
    HasIsHasKey(ExampleClaim(), "scope");
  }

  lemma {:induction false} AssetIsAdmissible(e: Entries)
    requires AssetValues(e)
    ensures Admissible(ExampleHost(), EMPTY, Call(true, e, true, 7))
    ensures KeyOf(ExampleHost(), Call(true, e, true, 7)) == "k"
  {
    ZeroIsHex();
    DescribedExactly(ExampleHost(), Call(true, e, true, 7));
  }

  lemma {:induction false} AssetPartsOk(e: Entries)
    requires AssetValues(e)
    ensures var c := Call(true, e, true, 7);
            PartsOk(c) && HasClaim(c) && HasContributors(c) && ParentCount(c) == 2 && WriteCount(c) == 6
  {
    ExampleClaimInOrder();
  }

  lemma {:induction false} IngestedWhen(h: Host, c: Call)
    requires c.ingest && Admissible(h, EMPTY, c) && PartsOk(c) && c.budget == 7 && KeyOf(h, c) == "k"
    requires HasClaim(c) && HasContributors(c) && ParentCount(c) == 2
    ensures var result := Ingested(0, Some(0), Some(0), [0, 1], 0);
            Handle(h, EMPTY, c) == (State(map["k" := Memo(DigestOf(h, c), result)], 1, 1, 1, 2, 1), Fresh(result))
  {
    FreshAsset(h, EMPTY, c);
    var result := Handle(h, EMPTY, c).1.result;
    assert result.derivations == [0, 1];
  }

  lemma {:induction false} ReplayedWhen(h: Host, s: State, c: Call)
    requires Addressed(h, c) && KeyOf(h, c) in s.table && s.table[KeyOf(h, c)].digest == DigestOf(h, c)
    ensures Handle(h, s, c) == (s, Replay(s.table[KeyOf(h, c)].result))
  {
    ChecksExactly(h, c);
  }

  /** An asset with its claim, contributors and two parents is ingested, and a repeat of the call replays the result. */
  lemma {:induction false} AssetIsIngested() returns (h: Host, c: Call)
    ensures c.ingest && AssetValues(c.envelope)
    ensures var result := Ingested(0, Some(0), Some(0), [0, 1], 0);
            var after := State(map["k" := Memo(DigestOf(h, c), result)], 1, 1, 1, 2, 1);
            Handle(h, EMPTY, c) == (after, Fresh(result)) && Handle(h, after, c) == (after, Replay(result))
  {
    var e := ExampleAsset();
    AssetHolds(e);
    h, c := ExampleHost(), Call(true, e, true, 7);
    AssetIsAdmissible(e);
    AssetPartsOk(e);
    IngestedWhen(h, c);
    ReplayedWhen(h, Handle(h, EMPTY, c).0, c);
  }

  /** An incomplete rights claim is refused after the asset was registered, with nothing else written. */
  lemma {:induction false} BadClaimLeavesAsset(h: Host, s: State, c: Call)
    requires c.ingest && Admissible(h, s, c) && c.budget > 0
    requires HasClaim(c) && !ClaimInOrder(Get(c.envelope, "explicit_rights_claim"))
    ensures Handle(h, s, c) == (s.(assets := s.assets + 1), Raised(BadClaim))
  {
    ChecksExactly(h, c);
    FailureEnds(c, Progress(s.(assets := s.assets + 1), c.budget - 1, Some(BadClaim)));
  }
}
