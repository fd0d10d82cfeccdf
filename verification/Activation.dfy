/**
 Activation of an asset that changed controller: one Rights Passport and one Global Passport for the buyer,
 issued by attempts that may stop anywhere. Passport stores only grow, in order of creation, and a passport's
 id is its place; version(t) is the version derived from the id of transfer t.
 */
module Activation {
  import opened Prelude
  import opened RightsProfile

  datatype RightsPassport = RightsPassport(objectId: string, controller: string, version: string, rules: seq<Rule>)

  datatype GlobalPassport = GlobalPassport(objectId: string, controller: string, version: string, rightsId: nat)

  datatype Transfer = Transfer(id: string, to: string)

  datatype Asset = Asset(controller: string, transfer: Option<Transfer>)

  datatype Registry = Registry(assets: map<string, Asset>, rights: seq<RightsPassport>, globals: seq<GlobalPassport>)

  /** Where an attempt stops: at its end, before a store accepted a passport, or right after one did. */
  datatype Stop = Never | BeforeRights | AfterRights | AfterGlobal

  datatype Outcome =
    | NoAsset | NotController | NoReceipt | NoPassport | Stopped
    | LostPassport   // active, yet no passport of the controller
    | Inconsistent   // not active, yet the latest passport is the controller's
    | Replay(rightsId: nat, globalId: nat)
    | Activated(rightsId: nat, globalId: nat)

  // ----- looking passports up -----

  /** ORDER BY created_at_ms DESC LIMIT 1 over the object's passports. */
  function Latest(gs: seq<GlobalPassport>, objectId: string): (r: Option<nat>)
    ensures r.Some? ==> r.value < |gs| && gs[r.value].objectId == objectId
    ensures forall i :: 0 <= i < |gs| && gs[i].objectId == objectId ==> r.Some? && i <= r.value
  {
    if gs == [] then None
    else if gs[|gs| - 1].objectId == objectId then Some(|gs| - 1)
    else Latest(gs[..|gs| - 1], objectId)
  }

  predicate Belongs(g: GlobalPassport, objectId: string, controller: string) {
    g.objectId == objectId && g.controller == controller
  }

  function LatestFor(gs: seq<GlobalPassport>, objectId: string, controller: string): (r: Option<nat>)
    ensures r.Some? ==> r.value < |gs| && Belongs(gs[r.value], objectId, controller)
    ensures forall i :: 0 <= i < |gs| && Belongs(gs[i], objectId, controller) ==> r.Some? && i <= r.value
  {
    if gs == [] then None
    else if Belongs(gs[|gs| - 1], objectId, controller) then Some(|gs| - 1)
    else LatestFor(gs[..|gs| - 1], objectId, controller)
  }

  predicate RightsKey(r: RightsPassport, objectId: string, controller: string, version: string) {
    r.objectId == objectId && r.controller == controller && r.version == version
  }

  predicate GlobalKey(g: GlobalPassport, objectId: string, controller: string, version: string) {
    Belongs(g, objectId, controller) && g.version == version
  }

  /** The first passport with that key. */
  function FindRights(rs: seq<RightsPassport>, objectId: string, controller: string, version: string): (r: Option<nat>)
    ensures r.Some? ==> r.value < |rs| && RightsKey(rs[r.value], objectId, controller, version)
    ensures r.None? ==> forall i :: 0 <= i < |rs| ==> !RightsKey(rs[i], objectId, controller, version)
  {
    if rs == [] then None
    else
      var rest := FindRights(rs[..|rs| - 1], objectId, controller, version);
      if rest.Some? then rest
      else if RightsKey(rs[|rs| - 1], objectId, controller, version) then Some(|rs| - 1)
      else None
  }

  function FindGlobal(gs: seq<GlobalPassport>, objectId: string, controller: string, version: string): (r: Option<nat>)
    ensures r.Some? ==> r.value < |gs| && GlobalKey(gs[r.value], objectId, controller, version)
    ensures r.None? ==> forall i :: 0 <= i < |gs| ==> !GlobalKey(gs[i], objectId, controller, version)
  {
    if gs == [] then None
    else
      var rest := FindGlobal(gs[..|gs| - 1], objectId, controller, version);
      if rest.Some? then rest
      else if GlobalKey(gs[|gs| - 1], objectId, controller, version) then Some(|gs| - 1)
      else None
  }

  // ----- one attempt -----

  const BUYER_RULES: seq<Rule> := [Rule(ALLOW, [CONTROL, TRANSFER], "SETTLED_ASSET_TRANSFER")]

  /** Transferred in: the last transfer of the asset went to its controller. */
  predicate TransferredIn(a: Asset) { a.transfer.Some? && a.transfer.value.to == a.controller }

  /** The rights passport an attempt settles on, and the store with it. */
  function WithRights(rs: seq<RightsPassport>, objectId: string, me: string, v: string): (seq<RightsPassport>, nat) {
    match FindRights(rs, objectId, me, v)
    case Some(i) => (rs, i)
    case None => (rs + [RightsPassport(objectId, me, v, BUYER_RULES)], |rs|)
  }

  function WithGlobal(gs: seq<GlobalPassport>, objectId: string, me: string, v: string, rightsId: nat)
    : (seq<GlobalPassport>, nat)
  {
    match FindGlobal(gs, objectId, me, v)
    case Some(i) => (gs, i)
    case None => (gs + [GlobalPassport(objectId, me, v, rightsId)], |gs|)
  }

  /**
   activate_transferred_asset in the wallet of me. raised: the look-up of the caller's passport raised while the
   status was taken, which the status reports as no passport.
   */
  function AttemptWith(version: string -> string, s: Registry, me: string, objectId: string, stop: Stop, raised: bool)
    : (Registry, Outcome)
  {
    if objectId !in s.assets then (s, NoAsset)
    else
      var asset := s.assets[objectId];
      var mine := LatestFor(s.globals, objectId, me);
      if asset.controller != me then (s, NotController)
      else if !TransferredIn(asset) || (mine.Some? && !raised) then
        if mine.None? then (s, LostPassport) else (s, Replay(s.globals[mine.value].rightsId, mine.value))
      else if asset.transfer.value.id == "" then (s, NoReceipt)
      else
        match Latest(s.globals, objectId)
        case None => (s, NoPassport)
        case Some(previous) =>
          if s.globals[previous].controller == me then (s, Inconsistent)
          else
            var v := version(asset.transfer.value.id);
            var found := FindRights(s.rights, objectId, me, v);
            if found.None? && stop.BeforeRights? then (s, Stopped)
            else
              var (rs, r) := WithRights(s.rights, objectId, me, v);
              if stop.AfterRights? || stop.BeforeRights? then (s.(rights := rs), Stopped)
              else
                var (gs, g) := WithGlobal(s.globals, objectId, me, v, r);
                (s.(rights := rs, globals := gs), if stop.AfterGlobal? then Stopped else Activated(r, g))
  }

  /** An attempt whose look-ups do not raise. */
  function Attempt(version: string -> string, s: Registry, me: string, objectId: string, stop: Stop)
    : (Registry, Outcome)
  {
    AttemptWith(version, s, me, objectId, stop, false)
  }

  /** The registries shared by the wallets, and the activation call of the wallet of me. */
  class Backend {
    const version: string -> string
    var assets: map<string, Asset>
    var rights: seq<RightsPassport>
    var globals: seq<GlobalPassport>

    ghost function Value(): Registry
      reads this
    {
      Registry(assets, rights, globals)
    }

    constructor (version: string -> string)
      ensures this.version == version && Value() == Registry(map[], [], [])
    {
      this.version := version;
      assets, rights, globals := map[], [], [];
    }

    method ActivateTransferredAsset(me: string, objectId: string, stop: Stop, raised: bool) returns (outcome: Outcome)
      modifies this
      ensures (Value(), outcome) == AttemptWith(version, old(Value()), me, objectId, stop, raised)
    {
      if objectId !in assets { return NoAsset; }
      var asset := assets[objectId];
      if asset.controller != me { return NotController; }
      var mine := LatestFor(globals, objectId, me);
      if !TransferredIn(asset) || (mine.Some? && !raised) {
        if mine.None? { return LostPassport; }
        return Replay(globals[mine.value].rightsId, mine.value);
      }
      if asset.transfer.value.id == "" { return NoReceipt; }
      var previous := Latest(globals, objectId);
      if previous.None? { return NoPassport; }
      if globals[previous.value].controller == me { return Inconsistent; }
      var v := version(asset.transfer.value.id);
      var newRights: nat;
      var existing := FindRights(rights, objectId, me, v);
      if existing.Some? {
        newRights := existing.value;
      } else {
        if stop.BeforeRights? { return Stopped; }
        newRights := |rights|;
        rights := rights + [RightsPassport(objectId, me, v, BUYER_RULES)];
      }
      if stop.AfterRights? || stop.BeforeRights? { return Stopped; }
      var newGlobal: nat;
      var issued := FindGlobal(globals, objectId, me, v);
      if issued.Some? {
        newGlobal := issued.value;
      } else {
        newGlobal := |globals|;
        globals := globals + [GlobalPassport(objectId, me, v, newRights)];
      }
      if stop.AfterGlobal? { return Stopped; }
      outcome := Activated(newRights, newGlobal);
    }
  }
}
