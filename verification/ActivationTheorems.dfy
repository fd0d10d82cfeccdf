/** Activation is resumable, happens at most once, and hands on no rights of the seller. */
module ActivationTheorems {
  import opened Prelude
  import opened RightsProfile
  import opened Activation

  // ----- one attempt -----

  /** What an activation needs: the caller controls an asset transferred to it, and the object has a passport. */
  ghost predicate Activatable(s: Registry, me: string, objectId: string) {
    && objectId in s.assets && s.assets[objectId].controller == me
    && s.assets[objectId].transfer.Some? && s.assets[objectId].transfer.value.to == me
    && s.assets[objectId].transfer.value.id != ""
    && exists i :: 0 <= i < |s.globals| && s.globals[i].objectId == objectId
  }

  /** The caller holds a passport of the object. */
  ghost predicate HasOne(s: Registry, me: string, objectId: string) {
    exists i :: 0 <= i < |s.globals| && s.globals[i].objectId == objectId && s.globals[i].controller == me
  }

  /** The newest passport of the object, at place i. */
  ghost predicate Newest(s: Registry, objectId: string, i: int) {
    && 0 <= i < |s.globals| && s.globals[i].objectId == objectId
    && forall j :: i < j < |s.globals| ==> s.globals[j].objectId != objectId
  }

  /** The newest of the caller's own. */
  ghost predicate NewestOwn(s: Registry, me: string, objectId: string, i: int) {
    && 0 <= i < |s.globals| && s.globals[i].objectId == objectId && s.globals[i].controller == me
    && forall j :: i < j < |s.globals| ==> !(s.globals[j].objectId == objectId && s.globals[j].controller == me)
  }

  lemma {:induction false} NewestIs(s: Registry, me: string, objectId: string)
    ensures forall i :: Newest(s, objectId, i) <==> Latest(s.globals, objectId) == Some(i)
    ensures forall i :: NewestOwn(s, me, objectId, i) <==> LatestFor(s.globals, objectId, me) == Some(i)
    ensures HasOne(s, me, objectId) <==> LatestFor(s.globals, objectId, me).Some?
    ensures (exists i :: 0 <= i < |s.globals| && s.globals[i].objectId == objectId)
            <==> Latest(s.globals, objectId).Some?
  {
    var own := LatestFor(s.globals, objectId, me);
    assert forall j :: 0 <= j < |s.globals| ==>
             (Belongs(s.globals[j], objectId, me)
              <==> s.globals[j].objectId == objectId && s.globals[j].controller == me);
    forall i ensures NewestOwn(s, me, objectId, i) <==> own == Some(i) {
      if own == Some(i) {
        assert forall j :: i < j < |s.globals| ==> !Belongs(s.globals[j], objectId, me);
      }
    }
  }

  /** The caller controls the asset, which was transferred to it. */
  ghost predicate CameIn(s: Registry, me: string, objectId: string) {
    && objectId in s.assets && s.assets[objectId].controller == me
    && s.assets[objectId].transfer.Some? && s.assets[objectId].transfer.value.to == me
  }

  ghost predicate Controls(s: Registry, me: string, objectId: string) {
    objectId in s.assets && s.assets[objectId].controller == me
  }

  /** Which state of the registry gives which answer. */
  lemma {:induction false} OutcomeExactly(version: string -> string, s: Registry, me: string, objectId: string,
                                          stop: Stop, raised: bool)
    ensures var (s', o) := AttemptWith(version, s, me, objectId, stop, raised);
            var done := Controls(s, me, objectId) && (!CameIn(s, me, objectId) || (HasOne(s, me, objectId) && !raised));
            && (o == NoAsset <==> objectId !in s.assets)
            && (o == NotController <==> objectId in s.assets && s.assets[objectId].controller != me)
            && (o == LostPassport <==> done && !HasOne(s, me, objectId))
            && (o.Replay? <==> done && HasOne(s, me, objectId))
            && (o.Replay? ==> NewestOwn(s, me, objectId, o.globalId) && o.rightsId == s.globals[o.globalId].rightsId)
            && (o == NoReceipt <==> CameIn(s, me, objectId) && !done && s.assets[objectId].transfer.value.id == "")
            && (o == NoPassport <==>
                  && CameIn(s, me, objectId) && !done && s.assets[objectId].transfer.value.id != ""
                  && !exists i :: 0 <= i < |s.globals| && s.globals[i].objectId == objectId)
            && (!o.Activated? && !o.Stopped? ==> s' == s)
            && (o.Activated? ==> stop.Never? && Activatable(s, me, objectId) && !done)
            && (o.Stopped? ==> !stop.Never? && Activatable(s, me, objectId) && !done)
  {
    NewestIs(s, me, objectId);
  }

  /** What a stop leaves behind: nothing, the Rights Passport alone, or all that a complete attempt does. */
  lemma {:induction false} StopLeaves(version: string -> string, s: Registry, me: string, objectId: string, stop: Stop)
    requires Attempt(version, s, me, objectId, Never).1.Activated?
    ensures var (end, o) := Attempt(version, s, me, objectId, Never);
            var (s', o') := Attempt(version, s, me, objectId, stop);
            && (stop.BeforeRights? ==> s' == s && o' == Stopped)
            && (stop.AfterRights? ==> s' == end.(globals := s.globals) && o' == Stopped)
            && (stop.AfterGlobal? ==> s' == end && o' == Stopped)
            && s.rights <= end.rights && |end.rights| <= |s.rights| + 1
            && s.globals <= end.globals && |end.globals| <= |s.globals| + 1 && end.assets == s.assets
  {
  }

  /**
   The guard for a buyer passport that the status missed is reached exactly when the look-up of the status raised and
   the latest passport of the asset transferred in is the caller's own; so without such an exception it never is.
   */
  lemma {:induction false} GuardReachedExactly(version: string -> string, s: Registry, me: string, objectId: string,
                                               stop: Stop, raised: bool)
    ensures AttemptWith(version, s, me, objectId, stop, raised).1 == Inconsistent
            <==> raised && Activatable(s, me, objectId) && s.globals[Latest(s.globals, objectId).value].controller == me
    ensures Attempt(version, s, me, objectId, stop).1 != Inconsistent
  {
    NewestIs(s, me, objectId);
    if mine :| Latest(s.globals, objectId) == Some(mine) && s.globals[mine].controller == me {
      assert Belongs(s.globals[mine], objectId, me);
    }
  }

  /**
   An attempt that is not stopped succeeds exactly when the asset is activatable or the caller already holds a
   passport.
   */
  lemma AttemptSucceeds(version: string -> string, s: Registry, me: string, objectId: string)
    ensures var o := Attempt(version, s, me, objectId, Never).1;
            (o.Activated? || o.Replay?) <==>
              || Activatable(s, me, objectId)
              || (objectId in s.assets && s.assets[objectId].controller == me
                  && LatestFor(s.globals, objectId, me).Some?)
  {
  }

  /** Stopping once and trying again ends in the state of one uninterrupted attempt. */
  lemma {:induction false} ResumeOnce(version: string -> string, s: Registry, me: string, objectId: string, stop: Stop)
    ensures Attempt(version, Attempt(version, s, me, objectId, stop).0, me, objectId, Never).0
            == Attempt(version, s, me, objectId, Never).0
  {
    var s1 := Attempt(version, s, me, objectId, stop).0;
    if s1 != s {
      var v := version(s.assets[objectId].transfer.value.id);
      if s1.globals != s.globals {
        AppendedLatestFor(s.globals, GlobalPassport(objectId, me, v, WithRights(s.rights, objectId, me, v).1),
                          objectId, me);
      } else {
        AppendedRights(s.rights, RightsPassport(objectId, me, v, BUYER_RULES), objectId, me, v);
      }
    }
  }

  lemma AppendedRights(rs: seq<RightsPassport>, r: RightsPassport, objectId: string, me: string, v: string)
    requires FindRights(rs, objectId, me, v).None? && RightsKey(r, objectId, me, v)
    ensures FindRights(rs + [r], objectId, me, v) == Some(|rs|)
  {
  }

  lemma {:induction false} AppendedLatestFor(gs: seq<GlobalPassport>, g: GlobalPassport, objectId: string, me: string)
    ensures LatestFor(gs + [g], objectId, me)
            == if Belongs(g, objectId, me) then Some(|gs|) else LatestFor(gs, objectId, me)
    ensures Latest(gs + [g], objectId) == if g.objectId == objectId then Some(|gs|) else Latest(gs, objectId)
  {
    assert (gs + [g])[..|gs|] == gs;
  }

  /** One try: where it stops, and whether the look-up of its status raises. */
  datatype Try = Try(stop: Stop, raised: bool)

  function AttemptAll(version: string -> string, s: Registry, me: string, objectId: string, tries: seq<Try>): Registry
    decreases |tries|
  {
    if tries == [] then s
    else
      var s1 := AttemptWith(version, s, me, objectId, tries[0].stop, tries[0].raised).0;
      AttemptAll(version, s1, me, objectId, tries[1..])
  }

  /** The caller has no passport of the object, or holds its latest. */
  ghost predicate NoneOrLatest(s: Registry, me: string, objectId: string) {
    LatestFor(s.globals, objectId, me).None? || Latest(s.globals, objectId) == LatestFor(s.globals, objectId, me)
  }

  /** A look-up that raises makes no difference to a caller without a passport, and stops one that holds the latest. */
  lemma {:induction false} RaisedTry(version: string -> string, s: Registry, me: string, objectId: string, stop: Stop)
    requires NoneOrLatest(s, me, objectId)
    ensures var s1 := AttemptWith(version, s, me, objectId, stop, true).0;
            (s1 == s || s1 == Attempt(version, s, me, objectId, stop).0) && NoneOrLatest(s1, me, objectId)
  {
    var s1 := AttemptWith(version, s, me, objectId, stop, true).0;
    if s1.globals != s.globals { AppendedLatestFor(s.globals, s1.globals[|s.globals|], objectId, me); }
  }

  /**
   However often tries were stopped, and wherever, the next complete one ends where a single one would have. Look-ups
   may raise in the tries of a caller that has no passport of the object at the start or holds its latest.
   */
  lemma {:induction false} Resumable(version: string -> string, s: Registry, me: string, objectId: string,
                                     tries: seq<Try>)
    requires NoneOrLatest(s, me, objectId) || forall t :: t in tries ==> !t.raised
    ensures Attempt(version, AttemptAll(version, s, me, objectId, tries), me, objectId, Never).0
            == Attempt(version, s, me, objectId, Never).0
    decreases |tries|
  {
    if tries != [] {
      var t := tries[0];
      var s1 := AttemptWith(version, s, me, objectId, t.stop, t.raised).0;
      if t.raised {
        assert t in tries;
        RaisedTry(version, s, me, objectId, t.stop);
      } else if NoneOrLatest(s, me, objectId) {
        PlainTry(version, s, me, objectId, t.stop);
      }
      ResumeOnce(version, s, me, objectId, t.stop);
      Resumable(version, s1, me, objectId, tries[1..]);
    }
  }

  lemma {:induction false} PlainTry(version: string -> string, s: Registry, me: string, objectId: string, stop: Stop)
    requires NoneOrLatest(s, me, objectId)
    ensures NoneOrLatest(Attempt(version, s, me, objectId, stop).0, me, objectId)
  {
    var s1 := Attempt(version, s, me, objectId, stop).0;
    if s1.globals != s.globals { AppendedLatestFor(s.globals, s1.globals[|s.globals|], objectId, me); }
  }

  // ----- runs -----

  datatype Event =
    | Register(objectId: string, controller: string)
    | Move(objectId: string, to: string, transferId: string)
    | IssueRights(passport: RightsPassport)
    | IssueGlobal(global: GlobalPassport)
    | TryCall(me: string, tried: string, try: Try)

  function Step(version: string -> string, s: Registry, e: Event): Registry {
    match e
    case Register(o, c) => if o in s.assets then s else s.(assets := s.assets[o := Asset(c, None)])
    case Move(o, to, id) =>
      if o in s.assets then s.(assets := s.assets[o := Asset(to, Some(Transfer(id, to)))]) else s
    case IssueRights(p) => s.(rights := s.rights + [p])
    case IssueGlobal(g) => s.(globals := s.globals + [g])
    case TryCall(me, o, t) => AttemptWith(version, s, me, o, t.stop, t.raised).0
  }

  ghost predicate TransferVersion(version: string -> string, v: string) { exists t :: version(t) == v }

  /** Passports issued in other ways never carry a version derived from a transfer. */
  ghost predicate Possible(version: string -> string, e: Event) {
    && (e.IssueRights? ==> !TransferVersion(version, e.passport.version))
    && (e.IssueGlobal? ==> !TransferVersion(version, e.global.version))
  }

  ghost predicate Reaches(version: string -> string, start: Registry, events: seq<Event>, end: Registry)
    decreases |events|
  {
    if events == [] then start == end
    else Possible(version, events[0]) && Reaches(version, Step(version, start, events[0]), events[1..], end)
  }

  const EMPTY := Registry(map[], [], [])

  ghost predicate RightsOnce(version: string -> string, rs: seq<RightsPassport>) {
    && (forall i, j, o, c, v :: 0 <= i < j < |rs| && TransferVersion(version, v) && RightsKey(rs[i], o, c, v)
          ==> !RightsKey(rs[j], o, c, v))
    && (forall i :: 0 <= i < |rs| && TransferVersion(version, rs[i].version) ==> rs[i].rules == BUYER_RULES)
  }

  ghost predicate GlobalsOnce(version: string -> string, s: Registry) {
    && (forall i, j, o, c, v ::
          0 <= i < j < |s.globals| && TransferVersion(version, v) && GlobalKey(s.globals[i], o, c, v)
          ==> !GlobalKey(s.globals[j], o, c, v))
    && (forall i :: 0 <= i < |s.globals| && TransferVersion(version, s.globals[i].version) ==>
          && s.globals[i].rightsId < |s.rights|
          && var g := s.globals[i]; RightsKey(s.rights[g.rightsId], g.objectId, g.controller, g.version))
  }

  ghost predicate Inv(version: string -> string, s: Registry) {
    RightsOnce(version, s.rights) && GlobalsOnce(version, s)
  }

  lemma RightsAppend(version: string -> string, s: Registry, p: RightsPassport)
    requires Inv(version, s)
    requires TransferVersion(version, p.version) ==>
               p.rules == BUYER_RULES && FindRights(s.rights, p.objectId, p.controller, p.version).None?
    ensures Inv(version, s.(rights := s.rights + [p]))
  {
  }

  lemma GlobalsAppend(version: string -> string, s: Registry, g: GlobalPassport)
    requires Inv(version, s)
    requires TransferVersion(version, g.version) ==>
               && FindGlobal(s.globals, g.objectId, g.controller, g.version).None? && g.rightsId < |s.rights|
               && RightsKey(s.rights[g.rightsId], g.objectId, g.controller, g.version)
    ensures Inv(version, s.(globals := s.globals + [g]))
  {
  }

  lemma {:induction false} AttemptKeepsInv(version: string -> string, s: Registry, me: string, objectId: string, t: Try)
    requires Inv(version, s)
    ensures Inv(version, AttemptWith(version, s, me, objectId, t.stop, t.raised).0)
  {
    var s' := AttemptWith(version, s, me, objectId, t.stop, t.raised).0;
    if s' != s {
      var v := version(s.assets[objectId].transfer.value.id);
      var (rs, r) := WithRights(s.rights, objectId, me, v);
      assert TransferVersion(version, v);
      if rs != s.rights { RightsAppend(version, s, RightsPassport(objectId, me, v, BUYER_RULES)); }
      var s1 := s.(rights := rs);
      if s'.globals != s.globals { GlobalsAppend(version, s1, GlobalPassport(objectId, me, v, r)); }
    }
  }

  lemma {:induction false} RunKeepsInv(version: string -> string, start: Registry, events: seq<Event>, end: Registry)
    requires Inv(version, start) && Reaches(version, start, events, end)
    ensures Inv(version, end)
    decreases |events|
  {
    if events != [] {
      var e := events[0];
      match e {
        case IssueRights(p) => RightsAppend(version, start, p);
        case IssueGlobal(g) => GlobalsAppend(version, start, g);
        case TryCall(me, o, t) => AttemptKeepsInv(version, start, me, o, t);
        case _ =>
      }
      RunKeepsInv(version, Step(version, start, e), events[1..], end);
    }
  }

  /**
   In every run, each transfer yields a buyer at most one Rights and one Global Passport, the latter naming the
   former.
   */
  lemma {:induction false} AtMostOnePair(version: string -> string, events: seq<Event>, s: Registry, objectId: string,
                                         buyer: string, t: string)
    requires Reaches(version, EMPTY, events, s)
    ensures forall i, j | 0 <= i < |s.rights| && 0 <= j < |s.rights| ::
              RightsKey(s.rights[i], objectId, buyer, version(t)) && RightsKey(s.rights[j], objectId, buyer, version(t))
              ==> i == j
    ensures forall i, j | 0 <= i < |s.globals| && 0 <= j < |s.globals| ::
              GlobalKey(s.globals[i], objectId, buyer, version(t))
              && GlobalKey(s.globals[j], objectId, buyer, version(t))
              ==> i == j
    ensures forall i | 0 <= i < |s.globals| && GlobalKey(s.globals[i], objectId, buyer, version(t)) ::
              && s.globals[i].rightsId < |s.rights|
              && RightsKey(s.rights[s.globals[i].rightsId], objectId, buyer, version(t))
  {
    RunKeepsInv(version, EMPTY, events, s);
    assert TransferVersion(version, version(t));
  }

  /** A completed activation leaves exactly one pair for the transfer, its global passport the object's latest. */
  lemma {:induction false} ActivatedPair(version: string -> string, events: seq<Event>, s: Registry, me: string,
                                         objectId: string)
    requires Reaches(version, EMPTY, events, s) && Attempt(version, s, me, objectId, Never).1.Activated?
    ensures var (s', o) := Attempt(version, s, me, objectId, Never);
            var v := version(s.assets[objectId].transfer.value.id);
            && o.rightsId < |s'.rights| && RightsKey(s'.rights[o.rightsId], objectId, me, v)
            && s'.rights[o.rightsId].rules
               == [Rule("ALLOW", ["CONTROL", "TRANSFER"], "SETTLED_ASSET_TRANSFER")]
            && o.globalId < |s'.globals| && s'.globals[o.globalId] == GlobalPassport(objectId, me, v, o.rightsId)
            && Latest(s'.globals, objectId) == Some(o.globalId)
            && LatestFor(s'.globals, objectId, me) == Some(o.globalId)
  {
    RunKeepsInv(version, EMPTY, events, s);
    var v := version(s.assets[objectId].transfer.value.id);
    assert TransferVersion(version, v);
    var r := WithRights(s.rights, objectId, me, v).1;
    AppendedLatestFor(s.globals, GlobalPassport(objectId, me, v, r), objectId, me);
  }

  /** The wallet controls the object and its passport is the object's latest. */
  ghost predicate Settled(s: Registry, me: string, objectId: string) {
    && objectId in s.assets && s.assets[objectId].controller == me
    && LatestFor(s.globals, objectId, me).Some? && Latest(s.globals, objectId) == LatestFor(s.globals, objectId, me)
  }

  /** A try of any wallet on any asset keeps a settled object settled by the same passport. */
  lemma {:induction false} TryKeepsSettled(version: string -> string, s: Registry, other: string, tried: string, t: Try,
                                           me: string, objectId: string)
    requires Settled(s, me, objectId)
    ensures var s' := AttemptWith(version, s, other, tried, t.stop, t.raised).0;
            && Settled(s', me, objectId) && LatestFor(s'.globals, objectId, me) == LatestFor(s.globals, objectId, me)
            && s.globals <= s'.globals && s'.assets == s.assets
  {
    var s' := AttemptWith(version, s, other, tried, t.stop, t.raised).0;
    TryAppends(version, s, other, tried, t);
    if tried == objectId {
      SettledTry(version, s, other, t, me, objectId);
    } else if s'.globals != s.globals {
      AppendedLatestFor(s.globals, s'.globals[|s.globals|], objectId, me);
    }
  }

  /** A try appends at most one global passport, for the asset tried. */
  lemma {:induction false} TryAppends(version: string -> string, s: Registry, other: string, tried: string, t: Try)
    ensures var s' := AttemptWith(version, s, other, tried, t.stop, t.raised).0;
            && s'.assets == s.assets
            && (s'.globals == s.globals
                || exists g :: Belongs(g, tried, other) && s'.globals == s.globals + [g])
  {
    var s' := AttemptWith(version, s, other, tried, t.stop, t.raised).0;
    if s'.globals != s.globals {
      var v := version(s.assets[tried].transfer.value.id);
      var g := GlobalPassport(tried, other, v, WithRights(s.rights, tried, other, v).1);
      assert Belongs(g, tried, other) && s'.globals == s.globals + [g];
    }
  }

  lemma {:induction false} SettledTry(version: string -> string, s: Registry, other: string, t: Try, me: string,
                                      objectId: string)
    requires Settled(s, me, objectId)
    ensures AttemptWith(version, s, other, objectId, t.stop, t.raised).0 == s
  {
    assert Belongs(s.globals[Latest(s.globals, objectId).value], objectId, me);
  }

  lemma {:induction false} TriesKeepSettled(version: string -> string, start: Registry, events: seq<Event>,
                                            end: Registry, me: string, objectId: string)
    requires Reaches(version, start, events, end) && (forall e :: e in events ==> e.TryCall?)
    requires Settled(start, me, objectId)
    ensures Settled(end, me, objectId) && LatestFor(end.globals, objectId, me) == LatestFor(start.globals, objectId, me)
    ensures start.globals <= end.globals && end.assets == start.assets
    decreases |events|
  {
    if events != [] {
      var e := events[0];
      assert e in events;
      TryKeepsSettled(version, start, e.me, e.tried, e.try, me, objectId);
      TriesKeepSettled(version, Step(version, start, e), events[1..], end, me, objectId);
    }
  }

  /**
   After an activation, and any later tries of anyone, a further one changes nothing and returns the same pair; if its
   look-up raises it reaches the guard instead.
   */
  lemma {:induction false} LaterAttemptsReplay(version: string -> string, before: seq<Event>, s: Registry, me: string,
                                               objectId: string, after: seq<Event>, end: Registry, t: Try)
    requires Reaches(version, EMPTY, before, s) && Attempt(version, s, me, objectId, Never).1.Activated?
    requires Reaches(version, Attempt(version, s, me, objectId, Never).0, after, end)
    requires forall e :: e in after ==> e.TryCall?
    ensures AttemptWith(version, end, me, objectId, t.stop, t.raised).0 == end
    ensures var o := Attempt(version, s, me, objectId, Never).1;
            AttemptWith(version, end, me, objectId, t.stop, t.raised).1
            == if t.raised then Inconsistent else Replay(o.rightsId, o.globalId)
  {
    ActivatedPair(version, before, s, me, objectId);
    var (s', o) := Attempt(version, s, me, objectId, Never);
    TriesKeepSettled(version, s', after, end, me, objectId);
    assert end.globals[o.globalId] == s'.globals[o.globalId];
    assert Belongs(end.globals[o.globalId], objectId, me);
  }

  // ----- rights after a sale -----

  /** The rules behind the object's latest passport, which are what instruments are issued from. */
  ghost predicate IssuesFrom(s: Registry, objectId: string, rules: seq<Rule>) {
    && Latest(s.globals, objectId).Some?
    && var g := s.globals[Latest(s.globals, objectId).value];
    && g.rightsId < |s.rights| && s.rights[g.rightsId].rules == rules
  }

  /** The spelling of the buyer's rule is already normal. */
  ghost predicate Plain(sp: Spelling) {
    sp.effect(ALLOW) == ALLOW && sp.token(CONTROL) == CONTROL && sp.token(TRANSFER) == TRANSFER
  }

  lemma {:induction false} BuyerGrants(sp: Spelling, e: string, a: string)
    requires Plain(sp)
    ensures Granted(sp, BUYER_RULES, e, a) <==> e == ALLOW && (a == CONTROL || a == TRANSFER)
  {
    assert BUYER_RULES[0].actions[0] == CONTROL && BUYER_RULES[0].actions[1] == TRANSFER;
    assert |BUYER_RULES| == 1 && |BUYER_RULES[0].actions| == 2;
  }

  /** Whatever the seller's passport allowed, an activated buyer issues from CONTROL and TRANSFER alone. */
  lemma {:induction false} SellerRightsEnd(version: string -> string, sp: Spelling, events: seq<Event>, s: Registry,
                                           me: string, objectId: string, o: Options, formulaVerified: bool)
    requires Plain(sp) && Reaches(version, EMPTY, events, s) && Attempt(version, s, me, objectId, Never).1.Activated?
    ensures IssuesFrom(Attempt(version, s, me, objectId, Never).0, objectId, BUYER_RULES)
    ensures MayIssue(sp, BUYER_RULES, o, formulaVerified) <==>
              && (exists a :: Asks(sp, o, a)) && (forall a :: Asks(sp, o, a) ==> a in {"CONTROL", "TRANSFER"})
              && (WholeAsset(sp, o) ==> OnlyTransfer(sp, o) && formulaVerified && PlainUnit(sp, o))
  {
    ActivatedPair(version, events, s, me, objectId);
    forall e, a ensures Granted(sp, BUYER_RULES, e, a) <==> e == ALLOW && (a == CONTROL || a == TRANSFER) {
      BuyerGrants(sp, e, a);
    }
  }

  /**
   After a successful attempt the latest passport is the caller's exactly when it was before, or the caller had none.
   */
  lemma {:induction false} OwnPassportIsLatest(version: string -> string, s: Registry, me: string, objectId: string)
    requires Attempt(version, s, me, objectId, Never).1.Activated? || Attempt(version, s, me, objectId, Never).1.Replay?
    ensures var s' := Attempt(version, s, me, objectId, Never).0;
            && Latest(s'.globals, objectId).Some?
            && (s'.globals[Latest(s'.globals, objectId).value].controller == me
                <==> || LatestFor(s.globals, objectId, me).None?
                     || Latest(s.globals, objectId) == LatestFor(s.globals, objectId, me))
  {
    var mine := LatestFor(s.globals, objectId, me);
    if mine.None? {
      var v := version(s.assets[objectId].transfer.value.id);
      var r := WithRights(s.rights, objectId, me, v).1;
      AppendedLatestFor(s.globals, GlobalPassport(objectId, me, v, r), objectId, me);
    } else {
      assert Belongs(s.globals[mine.value], objectId, me);
      var l := Latest(s.globals, objectId).value;
      if s.globals[l].controller == me { assert Belongs(s.globals[l], objectId, me); }
    }
  }

  /** The registry with one asset, its controller's passport pair and its last transfer. */
  function Owned(o: string, a: string, v0: string, asset: Asset): Registry {
    Registry(map[o := asset], [RightsPassport(o, a, v0, [])], [GlobalPassport(o, a, v0, 0)])
  }

  /** The same with the pair of b from transfer t1 as well. */
  function Bought(version: string -> string, o: string, a: string, v0: string, b: string, t1: string, asset: Asset)
    : Registry
  {
    Registry(map[o := asset], [RightsPassport(o, a, v0, []), RightsPassport(o, b, version(t1), BUYER_RULES)],
             [GlobalPassport(o, a, v0, 0), GlobalPassport(o, b, version(t1), 1)])
  }

  lemma {:induction false} FirstSale(version: string -> string, o: string, a: string, v0: string, b: string, t1: string)
    requires a != b && t1 != ""
    ensures var sold := Asset(b, Some(Transfer(t1, b)));
            Attempt(version, Owned(o, a, v0, sold), b, o, Never).0 == Bought(version, o, a, v0, b, t1, sold)
  {
  }

  lemma {:induction false} BoughtBack(version: string -> string, o: string, a: string, v0: string, b: string,
                                      t1: string, t2: string)
    requires a != b
    ensures var s := Bought(version, o, a, v0, b, t1, Asset(a, Some(Transfer(t2, a))));
            && Attempt(version, s, a, o, Never) == (s, Replay(0, 0))
            && IssuesFrom(s, o, BUYER_RULES) && s.globals[Latest(s.globals, o).value].controller == b
  {
    var first, second := GlobalPassport(o, a, v0, 0), GlobalPassport(o, b, version(t1), 1);
    AppendedLatestFor([first], second, o, a);
    assert [first] + [second] == [first, second];
  }

  lemma {:induction false} ReachesThen(version: string -> string, start: Registry, e: Event, rest: seq<Event>,
                                       end: Registry)
    requires Possible(version, e) && Reaches(version, Step(version, start, e), rest, end)
    ensures Reaches(version, start, [e] + rest, end)
  {
  }

  /**
   An owner who sells and buys back counts as active at once, while the object's latest passport is the other party's.
   */
  lemma {:induction false} ReacquisitionReplays(version: string -> string, o: string, a: string, b: string, t1: string,
                                                t2: string, v0: string)
    requires a != b && t1 != "" && !TransferVersion(version, v0)
    ensures var events := [Register(o, a), IssueRights(RightsPassport(o, a, v0, [])),
                           IssueGlobal(GlobalPassport(o, a, v0, 0))]
                          + [Move(o, b, t1), TryCall(b, o, Try(Never, false)), Move(o, a, t2)];
            var s := Bought(version, o, a, v0, b, t1, Asset(a, Some(Transfer(t2, a))));
            && Reaches(version, EMPTY, events, s)
            && Attempt(version, s, a, o, Never) == (s, Replay(0, 0))
            && IssuesFrom(s, o, BUYER_RULES) && s.globals[Latest(s.globals, o).value].controller == b
  {
    var sold, back := Asset(b, Some(Transfer(t1, b))), Asset(a, Some(Transfer(t2, a)));
    var s := Bought(version, o, a, v0, b, t1, back);
    FirstSale(version, o, a, v0, b, t1);
    ReachesThen(version, Bought(version, o, a, v0, b, t1, sold), Move(o, a, t2), [], s);
    ReachesThen(version, Owned(o, a, v0, sold), TryCall(b, o, Try(Never, false)), [Move(o, a, t2)], s);
    ReachesThen(version, Owned(o, a, v0, Asset(a, None)), Move(o, b, t1),
                [TryCall(b, o, Try(Never, false)), Move(o, a, t2)], s);
    Issued(version, o, a, v0, [Move(o, b, t1), TryCall(b, o, Try(Never, false)), Move(o, a, t2)], s);
    BoughtBack(version, o, a, v0, b, t1, t2);
  }

  lemma {:induction false} Issued(version: string -> string, o: string, a: string, v0: string, rest: seq<Event>,
                                  end: Registry)
    requires !TransferVersion(version, v0) && Reaches(version, Owned(o, a, v0, Asset(a, None)), rest, end)
    ensures Reaches(version, EMPTY, [Register(o, a), IssueRights(RightsPassport(o, a, v0, [])),
                                     IssueGlobal(GlobalPassport(o, a, v0, 0))] + rest, end)
  {
    var e1, e2 := Register(o, a), IssueRights(RightsPassport(o, a, v0, []));
    var e3 := IssueGlobal(GlobalPassport(o, a, v0, 0));
    var s1 := Registry(map[o := Asset(a, None)], [], []);
    var s2 := s1.(rights := [RightsPassport(o, a, v0, [])]);
    assert Step(version, EMPTY, e1) == s1;
    assert Step(version, s1, e2) == s2 by { assert s1.rights + [e2.passport] == s2.rights; }
    assert Step(version, s2, e3) == Owned(o, a, v0, Asset(a, None)) by {
      assert s2.globals + [e3.global] == [e3.global];
    }
    ReachesThen(version, s2, e3, rest, end);
    ReachesThen(version, s1, e2, [e3] + rest, end);
    ReachesThen(version, EMPTY, e1, [e2] + ([e3] + rest), end);
    assert [e1, e2, e3] + rest == [e1] + ([e2] + ([e3] + rest));
  }
}
