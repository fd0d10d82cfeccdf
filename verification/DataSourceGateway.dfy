/**
 Default-deny enrolment of data sources: rows, exclusions, and the decision for a path.
 Resolved paths are strings; Host says what normalising, naming and pattern matching make of them.
 New ids and the existence of a path are arguments.
 */
module DataSourceGateway {
  import opened Prelude
  import opened PathContainment

  /** place(p): the normalised form of p. tail(p): its name. glob(text, pattern): fnmatch. clean: a tidied pattern. */
  datatype Host = Host(place: string -> AbsPath, tail: string -> string, glob: (string, string) -> bool,
                       clean: string -> string)

  ghost predicate Sound(h: Host) { forall s: string :: Normalised(h.place(s)) }

  /** _norm(p) */
  function Norm(h: Host, p: string): string { Text(h.place(p)) }

  /** Blank is the stored mode "", which has the ceilings of OFF without being skipped like OFF. */
  datatype Mode = Off | Blank | Observe | Index | Provenance | Managed

  predicate MayDiscover(m: Mode) { !m.Off? && !m.Blank? }
  predicate MayRead(m: Mode) { m.Index? || m.Provenance? || m.Managed? }
  predicate MayTrace(m: Mode) { m.Provenance? || m.Managed? }

  datatype Flags = Flags(discovery: bool, content: bool, economic: bool, niki: bool, licensable: bool)

  datatype Source = Source(id: string, controller: string, root: string, mode: Mode, flags: Flags,
                           classification: string, created: int, updated: int)

  datatype Exclusion = Exclusion(source: Option<string>, pattern: string, hard: bool)

  datatype State = State(sources: seq<Source>, exclusions: seq<Exclusion>)

  datatype Refusal =
    | UnknownMode | NoSuchPath | DiscoveryBarred | ContentBarred | NikiWithoutContent | EconomicBarred
    | LicensableWithoutEconomic | EmptyPattern | NoSuchSource

  const NEVER_TOUCH: seq<string> :=
    ["*/windows/*", "*/system32/*", "*/programdata/microsoft/credentials/*",
     "*/appdata/local/microsoft/credentials/*", "*/appdata/roaming/microsoft/credentials/*",
     "*/appdata/local/google/chrome/user data/*/login data*",
     "*/appdata/local/microsoft/edge/user data/*/login data*",
     "*/secrets/*", "*/pki/*", "*/private_keys/*", "*/credentials/*",
     "*.pfx", "*.p12", "*.jks", "*.keystore", "*.key"]

  // ----- enrolment -----

  /** The first rule a request breaks. */
  function CheckFlags(m: Mode, f: Flags): Option<Refusal> {
    if f.discovery && !MayDiscover(m) then Some(DiscoveryBarred)
    else if f.content && !MayRead(m) then Some(ContentBarred)
    else if f.niki && !f.content then Some(NikiWithoutContent)
    else if f.economic && !m.Managed? then Some(EconomicBarred)
    else if f.licensable && !f.economic then Some(LicensableWithoutEconomic)
    else None
  }

  /** INSERT ... ON CONFLICT(root_path) DO UPDATE: an existing root keeps its id, place and creation time. */
  function Upsert(rows: seq<Source>, row: Source): seq<Source> {
    if rows == [] then [row]
    else if rows[0].root == row.root then [row.(id := rows[0].id, created := rows[0].created)] + rows[1..]
    else [rows[0]] + Upsert(rows[1..], row)
  }

  predicate HasId(rows: seq<Source>, id: string) { exists i :: 0 <= i < |rows| && rows[i].id == id }

  /** A request to enrol; mode is None when its text names no mode. */
  datatype Request = Request(controller: string, root: string, mode: Option<Mode>, flags: Flags, classification: string)

  function RequestRefusal(r: Request, present: bool): Option<Refusal> {
    if r.mode.None? then Some(UnknownMode)
    else if !present then Some(NoSuchPath)
    else CheckFlags(r.mode.value, r.flags)
  }

  function RowOf(r: Request, newId: string, now: int): Source
    requires r.mode.Some?
  {
    Source(newId, r.controller, r.root, r.mode.value, r.flags, r.classification, now, now)
  }

  // ----- decisions -----

  predicate Covers(h: Host, row: Source, target: string) {
    !row.mode.Off? && EnclosesText(Norm(h, row.root), Norm(h, target))
  }

  function CoveringRows(h: Host, rows: seq<Source>, target: string): seq<Source> {
    if rows == [] then []
    else (if Covers(h, rows[0], target) then [rows[0]] else []) + CoveringRows(h, rows[1..], target)
  }

  /** max(rows, key=len(norm(root))): the first of the longest. */
  function Longest(h: Host, rows: seq<Source>): (r: Source)
    requires rows != []
    ensures r in rows && forall x :: x in rows ==> |Norm(h, x.root)| <= |Norm(h, r.root)|
  {
    if |rows| == 1 then rows[0]
    else
      var rest := Longest(h, rows[1..]);
      assert rows == [rows[0]] + rows[1..];
      if |Norm(h, rest.root)| > |Norm(h, rows[0].root)| then rest else rows[0]
  }

  function MatchOf(h: Host, rows: seq<Source>, target: string): Option<Source> {
    var found := CoveringRows(h, rows, target);
    if found == [] then None else Some(Longest(h, found))
  }

  predicate Applies(h: Host, e: Exclusion, target: string, sourceId: string) {
    && (e.source.None? || e.source == Some(sourceId))
    && (h.glob(Norm(h, target), e.pattern) || h.glob(h.tail(target), e.pattern))
  }

  function FirstApplying(h: Host, es: seq<Exclusion>, hard: bool, target: string, sourceId: string): Option<Exclusion> {
    if es == [] then None
    else if es[0].hard == hard && Applies(h, es[0], target, sourceId) then Some(es[0])
    else FirstApplying(h, es[1..], hard, target, sourceId)
  }

  /** ORDER BY hard DESC: hard exclusions are looked at first. */
  function ExclusionOf(h: Host, es: seq<Exclusion>, target: string, sourceId: string): Option<Exclusion> {
    var hard := FirstApplying(h, es, true, target, sourceId);
    if hard.Some? then hard else FirstApplying(h, es, false, target, sourceId)
  }

  /** discover and metadata; content and read; hash and provenance; niki_content; economic, license and market. */
  datatype Purpose = ToDiscover | ToRead | ToTrace | ToFeedNiki | ToTrade | ToUnknown

  predicate Policy(row: Source, p: Purpose) {
    match p
    case ToDiscover => row.flags.discovery && MayDiscover(row.mode)
    case ToRead => row.flags.content && MayRead(row.mode)
    case ToTrace => row.flags.content && MayTrace(row.mode)
    case ToFeedNiki => row.flags.niki && row.flags.content && MayRead(row.mode)
    case ToTrade => row.flags.economic && row.mode.Managed?
    case ToUnknown => false
  }

  datatype Decision =
    | NotEnrolled | Excluded(sourceId: string, exclusion: Exclusion) | Decided(allowed: bool, source: Source)

  function Assess(h: Host, s: State, target: string, p: Purpose): Decision {
    match MatchOf(h, s.sources, target)
    case None => NotEnrolled
    case Some(row) =>
      match ExclusionOf(h, s.exclusions, target, row.id)
      case Some(e) => Excluded(row.id, e)
      case None => Decided(Policy(row, p), row)
  }

  predicate Allows(h: Host, s: State, target: string, p: Purpose) {
    Assess(h, s, target, p).Decided? && Assess(h, s, target, p).allowed
  }

  // ----- the state machine -----

  function DefaultExclusions(patterns: seq<string>): seq<Exclusion> {
    if patterns == [] then [] else [Exclusion(None, patterns[0], true)] + DefaultExclusions(patterns[1..])
  }

  predicate HasHardGlobal(es: seq<Exclusion>) { exists i :: 0 <= i < |es| && es[i].hard && es[i].source.None? }

  /** Opening inserts the default patterns when there is no global hard exclusion. */
  function Opened(s: State, patterns: seq<string>): State {
    if HasHardGlobal(s.exclusions) then s else s.(exclusions := s.exclusions + DefaultExclusions(patterns))
  }

  function Enrolled(s: State, r: Request, present: bool, newId: string, now: int): State {
    if RequestRefusal(r, present).Some? then s else s.(sources := Upsert(s.sources, RowOf(r, newId, now)))
  }

  function ExclusionRefusal(s: State, pattern: string, source: Option<string>): Option<Refusal> {
    if pattern == "" then Some(EmptyPattern)
    else if source.Some? && source.value != "" && !HasId(s.sources, source.value) then Some(NoSuchSource)
    else None
  }

  function WithExclusion(h: Host, s: State, pattern: string, source: Option<string>, hard: bool): State {
    if ExclusionRefusal(s, h.clean(pattern), source).Some? then s
    else s.(exclusions := s.exclusions + [Exclusion(source, h.clean(pattern), hard)])
  }

  class Gateway {
    const h: Host
    var sources: seq<Source>
    var exclusions: seq<Exclusion>

    ghost function Value(): State
      reads this
    {
      State(sources, exclusions)
    }

    constructor (h: Host)
      ensures this.h == h && Value() == Opened(State([], []), NEVER_TOUCH)
    {
      this.h := h;
      sources, exclusions := [], [];
      new;
      Reopen();
    }

    /** The default patterns are inserted when no global hard exclusion is there. */
    method Reopen()
      modifies this
      ensures Value() == Opened(old(Value()), NEVER_TOUCH)
    {
      if !HasHardGlobal(exclusions) { InsertDefaults(NEVER_TOUCH); }
    }

    method InsertDefaults(patterns: seq<string>)
      modifies this`exclusions
      ensures exclusions == old(exclusions) + DefaultExclusions(patterns)
    {
      ghost var end := exclusions + DefaultExclusions(patterns);
      for i := 0 to |patterns|
        invariant end == exclusions + DefaultExclusions(patterns[i..])
      {
        assert patterns[i..][0] == patterns[i] && patterns[i..][1..] == patterns[i + 1..];
        exclusions := exclusions + [Exclusion(None, patterns[i], true)];
      }
    }

    method EnrollSource(r: Request, present: bool, newId: string, now: int) returns (refusal: Option<Refusal>)
      modifies this
      ensures refusal == RequestRefusal(r, present) && exclusions == old(exclusions)
      ensures Value() == Enrolled(old(Value()), r, present, newId, now)
    {
      refusal := RequestRefusal(r, present);
      if refusal.None? { sources := Upsert(sources, RowOf(r, newId, now)); }
    }

    method AddExclusion(pattern: string, source: Option<string>, hard: bool) returns (refusal: Option<Refusal>)
      modifies this
      ensures refusal
              == if h.clean(pattern) == "" then Some(EmptyPattern)
                 else if source.Some? && source.value != "" && !HasId(sources, source.value) then Some(NoSuchSource)
                 else None
      ensures sources == old(sources)
      ensures exclusions
              == old(exclusions) + if refusal.None? then [Exclusion(source, h.clean(pattern), hard)] else []
      ensures Value() == WithExclusion(h, old(Value()), pattern, source, hard)
    {
      refusal := ExclusionRefusal(State(sources, exclusions), h.clean(pattern), source);
      if refusal.None? { exclusions := exclusions + [Exclusion(source, h.clean(pattern), hard)]; }
    }

    method MatchingSource(target: string) returns (r: Option<Source>)
      ensures r == MatchOf(h, sources, target)
    {
      var found := [];
      for i := 0 to |sources|
        invariant found + CoveringRows(h, sources[i..], target) == CoveringRows(h, sources, target)
      {
        assert sources[i..][0] == sources[i] && sources[i..][1..] == sources[i + 1..];
        if Covers(h, sources[i], target) { found := found + [sources[i]]; }
      }
      assert found == CoveringRows(h, sources, target);
      if found == [] { return None; }
      r := Some(Longest(h, found));
    }

    method FindExclusion(target: string, sourceId: string) returns (r: Option<Exclusion>)
      ensures r == ExclusionOf(h, exclusions, target, sourceId)
    {
      r := FirstIn(true, target, sourceId);
      if r.None? { r := FirstIn(false, target, sourceId); }
    }

    method FirstIn(hard: bool, target: string, sourceId: string) returns (r: Option<Exclusion>)
      ensures r == FirstApplying(h, exclusions, hard, target, sourceId)
    {
      for i := 0 to |exclusions|
        invariant FirstApplying(h, exclusions, hard, target, sourceId)
                  == FirstApplying(h, exclusions[i..], hard, target, sourceId)
      {
        assert exclusions[i..][0] == exclusions[i] && exclusions[i..][1..] == exclusions[i + 1..];
        if exclusions[i].hard == hard && Applies(h, exclusions[i], target, sourceId) { return Some(exclusions[i]); }
      }
      r := None;
    }

    method AssessPath(target: string, p: Purpose) returns (d: Decision)
      ensures d == Assess(h, Value(), target, p)
    {
      var row := MatchingSource(target);
      if row.None? { return NotEnrolled; }
      var e := FindExclusion(target, row.value.id);
      if e.Some? { return Excluded(row.value.id, e.value); }
      d := Decided(Policy(row.value, p), row.value);
    }

    /** The roots of the controller's sources that may be traced; an empty controller stands for all. */
    method RootsForProvenance(controller: string) returns (roots: seq<string>)
      ensures forall x :: x in roots <==> Listed(Value(), controller, x)
    {
      roots := [];
      for i := 0 to |sources|
        invariant forall x :: x in roots
                    <==> exists k :: 0 <= k < i && ListedRow(sources[k], controller) && sources[k].root == x
      {
        if ListedRow(sources[i], controller) { roots := roots + [sources[i].root]; }
      }
    }
  }

  predicate ListedRow(row: Source, controller: string) {
    (controller == "" || row.controller == controller) && MayTrace(row.mode) && row.flags.content
  }

  ghost predicate Listed(s: State, controller: string, root: string) {
    exists k :: 0 <= k < |s.sources| && ListedRow(s.sources[k], controller) && s.sources[k].root == root
  }
}
