/** What the gateway's decisions mean, for one state and over every run of calls. */
module GatewayTheorems {
  import opened Prelude
  import opened PathContainment
  import opened DataSourceGateway

  // ----- the deciding source -----

  ghost predicate DistinctPlaces(h: Host, rows: seq<Source>) {
    forall i, j :: 0 <= i < j < |rows| ==> h.place(rows[i].root) != h.place(rows[j].root)
  }

  ghost predicate Under(h: Host, root: string, target: string) { Contains(h.place(root), h.place(target)) }

  /** r is switched on, contains the target, and every other such row contains r. */
  ghost predicate Deepest(h: Host, rows: seq<Source>, target: string, r: Source) {
    && r in rows && !r.mode.Off? && Under(h, r.root, target)
    && forall x :: x in rows && !x.mode.Off? && Under(h, x.root, target) ==> Under(h, x.root, r.root)
  }

  lemma {:induction false} CoveringMembers(h: Host, rows: seq<Source>, target: string)
    requires Sound(h)
    ensures forall x :: x in CoveringRows(h, rows, target) <==> x in rows && !x.mode.Off? && Under(h, x.root, target)
  {
    if rows != [] {
      CoveringMembers(h, rows[1..], target);
      EnclosesIsContainment(h.place(rows[0].root), h.place(target));
      assert rows == [rows[0]] + rows[1..];
    }
  }

  lemma PlacesDetermine(h: Host, rows: seq<Source>, x: Source, y: Source)
    requires DistinctPlaces(h, rows) && x in rows && y in rows && h.place(x.root) == h.place(y.root)
    ensures x == y
  {
  }

  lemma ContainsAntisymmetric(p: AbsPath, q: AbsPath)
    requires Contains(p, q) && Contains(q, p)
    ensures p == q
  {
  }

  /** The longest matching root text is the unique deepest root that is not OFF. */
  lemma {:induction false} MatchIsDeepest(h: Host, rows: seq<Source>, target: string)
    requires Sound(h) && DistinctPlaces(h, rows)
    ensures forall r :: MatchOf(h, rows, target) == Some(r) <==> Deepest(h, rows, target, r)
  {
    CoveringMembers(h, rows, target);
    forall r ensures MatchOf(h, rows, target) == Some(r) <==> Deepest(h, rows, target, r) {
      if MatchOf(h, rows, target) == Some(r) { LongestIsDeepest(h, rows, target, r); }
      if Deepest(h, rows, target, r) {
        assert r in CoveringRows(h, rows, target);
        var m := MatchOf(h, rows, target).value;
        LongestIsDeepest(h, rows, target, m);
        ContainsAntisymmetric(h.place(r.root), h.place(m.root));
        PlacesDetermine(h, rows, r, m);
      }
    }
  }

  lemma {:induction false} LongestIsDeepest(h: Host, rows: seq<Source>, target: string, r: Source)
    requires Sound(h) && DistinctPlaces(h, rows) && MatchOf(h, rows, target) == Some(r)
    ensures Deepest(h, rows, target, r)
  {
    CoveringMembers(h, rows, target);
    forall x | x in rows && !x.mode.Off? && Under(h, x.root, target) ensures Under(h, x.root, r.root) {
      assert x in CoveringRows(h, rows, target);
      ContainersFormChain(h.place(x.root), h.place(r.root), h.place(target));
      if Under(h, r.root, x.root) && h.place(r.root) != h.place(x.root) {
        DeeperIsLonger(h.place(r.root), h.place(x.root));
      }
    }
  }

  /** Of roots whose texts are equally long, as two spellings of one place are, the first decides. */
  lemma {:induction false} FirstOfLongest(h: Host, rows: seq<Source>) returns (i: nat)
    requires rows != []
    ensures i < |rows| && rows[i] == Longest(h, rows)
    ensures forall j :: 0 <= j < i ==> |Norm(h, rows[j].root)| < |Norm(h, rows[i].root)|
    ensures forall j :: 0 <= j < |rows| ==> |Norm(h, rows[j].root)| <= |Norm(h, rows[i].root)|
  {
    i := 0;
    if |rows| > 1 {
      var rest := rows[1..];
      var k := FirstOfLongest(h, rest);
      assert forall j :: 0 < j < |rows| ==> rows[j] == rest[j - 1];
      if |Norm(h, rest[k].root)| > |Norm(h, rows[0].root)| { i := k + 1; }
    }
  }

  // ----- enrolling a root again -----

  /** The ceilings of each mode, rule by rule; a request is refused by the first rule it breaks. */
  lemma {:induction false} RequestExactly(r: Request, present: bool)
    ensures RequestRefusal(r, present).None?
            <==> && r.mode.Some? && present
                 && (r.flags.discovery ==> r.mode.value in {Observe, Index, Provenance, Managed})
                 && (r.flags.content ==> r.mode.value in {Index, Provenance, Managed})
                 && (r.flags.niki ==> r.flags.content) && (r.flags.economic ==> r.mode.value == Managed)
                 && (r.flags.licensable ==> r.flags.economic)
    ensures RequestRefusal(r, present) == Some(UnknownMode) <==> r.mode.None?
    ensures RequestRefusal(r, present) == Some(NoSuchPath) <==> r.mode.Some? && !present
    ensures RequestRefusal(r, present) == Some(DiscoveryBarred)
            <==> r.mode.Some? && present && r.flags.discovery && r.mode.value in {Off, Blank}
    ensures RequestRefusal(r, present) == Some(ContentBarred)
            <==> && r.mode.Some? && present && r.flags.content
                 && (r.mode.value == Observe || (r.mode.value in {Off, Blank} && !r.flags.discovery))
    ensures RequestRefusal(r, present) == Some(LicensableWithoutEconomic)
            ==> r.flags.licensable && !r.flags.economic && (r.flags.niki ==> r.flags.content)
    ensures RequestRefusal(r, present) == Some(NikiWithoutContent) ==> r.flags.niki && !r.flags.content
    ensures RequestRefusal(r, present) == Some(EconomicBarred)
            ==> r.flags.economic && r.mode.value != Managed && (r.flags.niki ==> r.flags.content)
  {
  }

  /** A known root keeps place, id and creation time and takes all else from the new row; a new root goes to the end. */
  lemma {:induction false} UpsertExactly(rows: seq<Source>, row: Source)
    requires forall i, j :: 0 <= i < j < |rows| ==> rows[i].root != rows[j].root
    ensures var up := Upsert(rows, row);
            && |rows| <= |up|
            && (forall i :: 0 <= i < |rows| ==>
                  up[i] == if rows[i].root != row.root then rows[i]
                           else Source(rows[i].id, row.controller, row.root, row.mode, row.flags, row.classification,
                                       rows[i].created, row.updated))
            && up[|rows|..] == if exists i :: 0 <= i < |rows| && rows[i].root == row.root then [] else [row]
  {
    if rows != [] {
      var tail := rows[1..];
      assert forall i :: 0 <= i < |tail| ==> tail[i] == rows[i + 1];
      if rows[0].root != row.root {
        UpsertExactly(tail, row);
        assert Upsert(rows, row)[|rows|..] == Upsert(tail, row)[|tail|..];
      }
    }
  }

  lemma UpsertMembers(rows: seq<Source>, row: Source)
    requires forall i, j :: 0 <= i < j < |rows| ==> rows[i].root != rows[j].root
    ensures forall x: Source :: x.root != row.root ==> (x in Upsert(rows, row) <==> x in rows)
    ensures forall x :: x in Upsert(rows, row) && x.root == row.root
              ==> x.(id := row.id, created := row.created) == row
                  && (x.id == row.id || exists y :: y in rows && y.root == row.root && y.id == x.id)
    ensures forall y, x :: y in rows && y.root == row.root && x in Upsert(rows, row) && x.root == row.root
              ==> x.id == y.id
  {
  }

  lemma DistinctStrings(h: Host, rows: seq<Source>)
    requires DistinctPlaces(h, rows)
    ensures forall i, j :: 0 <= i < j < |rows| ==> rows[i].root != rows[j].root
  {
  }

  /** Another root, switched on, lies between the enrolled root and the target. */
  ghost predicate Shielded(h: Host, rows: seq<Source>, root: string, target: string) {
    exists x :: x in rows && x.root != root && !x.mode.Off? && Under(h, root, x.root) && Under(h, x.root, target)
  }

  /** Enrolling a root changes decisions only below it, and there only where no deeper source decides. */
  lemma {:induction false} EnrolmentIsLocal(h: Host, s: State, r: Request, present: bool, newId: string, now: int,
                                            target: string, p: Purpose)
    requires Sound(h) && DistinctPlaces(h, s.sources) && DistinctPlaces(h, Enrolled(s, r, present, newId, now).sources)
    requires !Under(h, r.root, target) || Shielded(h, s.sources, r.root, target)
    ensures Assess(h, Enrolled(s, r, present, newId, now), target, p) == Assess(h, s, target, p)
  {
    var s' := Enrolled(s, r, present, newId, now);
    if RequestRefusal(r, present).None? {
      DistinctStrings(h, s.sources);
      UpsertMembers(s.sources, RowOf(r, newId, now));
      MatchIsDeepest(h, s.sources, target);
      MatchIsDeepest(h, s'.sources, target);
      forall m ensures Deepest(h, s.sources, target, m) ==> Deepest(h, s'.sources, target, m) {
        DeepestCarries(h, s.sources, s'.sources, r.root, target, m);
      }
      forall m ensures Deepest(h, s'.sources, target, m) ==> Deepest(h, s.sources, target, m) {
        DeepestCarries(h, s'.sources, s.sources, r.root, target, m);
      }
      SameOption(MatchOf(h, s.sources, target), MatchOf(h, s'.sources, target));
    }
  }

  lemma SameOption(a: Option<Source>, b: Option<Source>)
    requires forall m :: a == Some(m) <==> b == Some(m)
    ensures a == b
  {
  }

  lemma DeepestCarries(h: Host, rows: seq<Source>, rows': seq<Source>, root: string, target: string, m: Source)
    requires DistinctPlaces(h, rows) && DistinctPlaces(h, rows')
    requires forall x: Source :: x.root != root ==> (x in rows <==> x in rows')
    requires !Under(h, root, target) || Shielded(h, rows, root, target)
    ensures Deepest(h, rows, target, m) ==> Deepest(h, rows', target, m)
  {
  }

  // ----- runs -----

  datatype Event =
    | Enrol(request: Request, present: bool, newId: string, now: int)
    | Exclude(pattern: string, source: Option<string>, hard: bool)
    | Reopen(patterns: seq<string>)

  function Step(h: Host, s: State, e: Event): State {
    match e
    case Enrol(r, present, newId, now) => Enrolled(s, r, present, newId, now)
    case Exclude(pattern, source, hard) => WithExclusion(h, s, pattern, source, hard)
    case Reopen(patterns) => Opened(s, patterns)
  }

  /** Generated ids are new. */
  ghost predicate Possible(s: State, e: Event) { e.Enrol? ==> !HasId(s.sources, e.newId) }

  ghost predicate Reaches(h: Host, start: State, events: seq<Event>, end: State)
    decreases |events|
  {
    if events == [] then start == end
    else Possible(start, events[0]) && Reaches(h, Step(h, start, events[0]), events[1..], end)
  }

  function Fresh(patterns: seq<string>): State { Opened(State([], []), patterns) }

  /** Some run from a first opening with these default patterns ends in s. */
  ghost predicate Reachable(h: Host, patterns: seq<string>, s: State) {
    exists events :: Reaches(h, Fresh(patterns), events, s)
  }

  ghost predicate Ceilings(row: Source) {
    && (row.flags.discovery ==> MayDiscover(row.mode)) && (row.flags.content ==> MayRead(row.mode))
    && (row.flags.niki ==> row.flags.content) && (row.flags.economic ==> row.mode.Managed?)
    && (row.flags.licensable ==> row.flags.economic)
  }

  ghost predicate Inv(s: State, patterns: seq<string>) {
    && (forall i, j :: 0 <= i < j < |s.sources| ==> s.sources[i].root != s.sources[j].root)
    && (forall x :: x in s.sources ==> Ceilings(x))
    && (forall pattern :: pattern in patterns ==> Exclusion(None, pattern, true) in s.exclusions)
  }

  lemma DefaultMembers(patterns: seq<string>)
    ensures forall p :: p in patterns ==> Exclusion(None, p, true) in DefaultExclusions(patterns)
  {
  }

  lemma {:induction false} FreshInv(patterns: seq<string>)
    ensures Inv(Fresh(patterns), patterns)
  {
    DefaultMembers(patterns);
  }

  lemma {:induction false} UpsertRoots(rows: seq<Source>, row: Source)
    requires forall i, j :: 0 <= i < j < |rows| ==> rows[i].root != rows[j].root
    ensures forall i, j :: 0 <= i < j < |Upsert(rows, row)| ==> Upsert(rows, row)[i].root != Upsert(rows, row)[j].root
  {
    if rows != [] && rows[0].root != row.root {
      var tail := rows[1..];
      UpsertRoots(tail, row);
      UpsertMembers(tail, row);
      var up := Upsert(tail, row);
      forall j | 0 <= j < |up| ensures up[j].root != rows[0].root {
        assert up[j] in up;
        if up[j].root != row.root {
          var k :| 0 <= k < |tail| && tail[k] == up[j];
          assert rows[k + 1] == up[j];
        }
      }
    }
  }

  lemma {:induction false} StepKeepsInv(h: Host, patterns: seq<string>, s: State, e: Event)
    requires Inv(s, patterns) && Possible(s, e)
    ensures Inv(Step(h, s, e), patterns)
  {
    var s' := Step(h, s, e);
    if e.Enrol? && RequestRefusal(e.request, e.present).None? {
      var row := RowOf(e.request, e.newId, e.now);
      UpsertMembers(s.sources, row);
      UpsertRoots(s.sources, row);
      forall x | x in s'.sources ensures Ceilings(x) {
        if x.root == row.root { assert x.mode == row.mode && x.flags == row.flags; }
      }
    }
  }

  lemma {:induction false} RunKeepsInv(h: Host, patterns: seq<string>, start: State, events: seq<Event>, end: State)
    requires Inv(start, patterns) && Reaches(h, start, events, end)
    ensures Inv(end, patterns)
    decreases |events|
  {
    if events != [] {
      StepKeepsInv(h, patterns, start, events[0]);
      RunKeepsInv(h, patterns, Step(h, start, events[0]), events[1..], end);
    }
  }

  lemma {:induction false} ReachableInv(h: Host, patterns: seq<string>, s: State)
    requires Reachable(h, patterns, s)
    ensures Inv(s, patterns)
  {
    var events :| Reaches(h, Fresh(patterns), events, s);
    FreshInv(patterns);
    RunKeepsInv(h, patterns, Fresh(patterns), events, s);
  }

  // ----- ceilings and decisions -----

  lemma {:induction false} MatchMember(h: Host, rows: seq<Source>, target: string)
    requires MatchOf(h, rows, target).Some?
    ensures MatchOf(h, rows, target).value in rows
  {
    if CoveringRows(h, rows, target) != [] { CoveringSubset(h, rows, target); }
  }

  lemma CoveringSubset(h: Host, rows: seq<Source>, target: string)
    ensures forall x :: x in CoveringRows(h, rows, target) ==> x in rows
  {
  }

  /** In every reachable state the deciding source's flags alone decide, except that tracing also needs its mode. */
  lemma {:induction false} FlagsDecide(h: Host, patterns: seq<string>, s: State, target: string)
    requires Reachable(h, patterns, s) && Assess(h, s, target, ToDiscover).Decided?
    ensures var row := Assess(h, s, target, ToDiscover).source;
            && Ceilings(row)
            && (Allows(h, s, target, ToDiscover) <==> row.flags.discovery)
            && (Allows(h, s, target, ToRead) <==> row.flags.content)
            && (Allows(h, s, target, ToFeedNiki) <==> row.flags.niki)
            && (Allows(h, s, target, ToTrade) <==> row.flags.economic)
            && (Allows(h, s, target, ToTrace) <==> row.flags.content && (row.mode.Provenance? || row.mode.Managed?))
            && ((Allows(h, s, target, ToTrace) <==> row.flags.content) <==> !(row.flags.content && row.mode.Index?))
  {
    ReachableInv(h, patterns, s);
    MatchMember(h, s.sources, target);
  }

  /** Feeding NIKI and tracing are never allowed where reading is not. */
  lemma NikiAndTraceNeedContent(h: Host, patterns: seq<string>, s: State, target: string)
    requires Reachable(h, patterns, s)
    ensures Allows(h, s, target, ToFeedNiki) || Allows(h, s, target, ToTrace) ==> Allows(h, s, target, ToRead)
  {
  }

  // ----- exclusions -----

  lemma FirstApplyingIs(h: Host, es: seq<Exclusion>, hard: bool, target: string, id: string)
    ensures FirstApplying(h, es, hard, target, id).Some?
            <==> exists e :: e in es && e.hard == hard && Applies(h, e, target, id)
    ensures FirstApplying(h, es, hard, target, id).Some?
            ==> var e := FirstApplying(h, es, hard, target, id).value;
                e in es && e.hard == hard && Applies(h, e, target, id)
  {
  }

  /** An exclusion is reported exactly when one applies, and a hard one whenever a hard one applies. */
  lemma {:induction false} ReportedExclusion(h: Host, es: seq<Exclusion>, target: string, id: string)
    ensures ExclusionOf(h, es, target, id).Some? <==> exists e :: e in es && Applies(h, e, target, id)
    ensures ExclusionOf(h, es, target, id).Some? ==>
              && ExclusionOf(h, es, target, id).value in es
              && Applies(h, ExclusionOf(h, es, target, id).value, target, id)
              && (ExclusionOf(h, es, target, id).value.hard
                  <==> exists e :: e in es && e.hard && Applies(h, e, target, id))
  {
    FirstApplyingIs(h, es, true, target, id);
    FirstApplyingIs(h, es, false, target, id);
  }

  /** A path matching a default pattern is allowed for no purpose in any reachable state; the report is a hard one. */
  lemma {:induction false} NeverTouched(h: Host, patterns: seq<string>, s: State, target: string, p: Purpose,
                                        pattern: string)
    requires Reachable(h, patterns, s) && pattern in patterns
    requires h.glob(Norm(h, target), pattern) || h.glob(h.tail(target), pattern)
    ensures var d := Assess(h, s, target, p); d.NotEnrolled? || (d.Excluded? && d.exclusion.hard)
    ensures !Allows(h, s, target, p)
  {
    ReachableInv(h, patterns, s);
    if MatchOf(h, s.sources, target).Some? {
      var id := MatchOf(h, s.sources, target).value.id;
      assert Applies(h, Exclusion(None, pattern, true), target, id);
      ReportedExclusion(h, s.exclusions, target, id);
    }
  }

  /** Only exclusions are added: whatever a run without enrolments allows was allowed before it. */
  lemma {:induction false} ExclusionsOnlyDeny(h: Host, start: State, events: seq<Event>, end: State, target: string,
                                              p: Purpose)
    requires Reaches(h, start, events, end) && forall e :: e in events ==> !e.Enrol?
    requires Allows(h, end, target, p)
    ensures Allows(h, start, target, p)
    decreases |events|
  {
    if events != [] {
      var next := Step(h, start, events[0]);
      assert events[0] in events;
      ExclusionsOnlyDeny(h, next, events[1..], end, target, p);
      var id := MatchOf(h, next.sources, target).value.id;
      ReportedExclusion(h, next.exclusions, target, id);
      ReportedExclusion(h, start.exclusions, target, id);
      ExclusionsGrow(h, start, events[0]);
    }
  }

  lemma ExclusionsGrow(h: Host, s: State, e: Event)
    ensures forall x :: x in s.exclusions ==> x in Step(h, s, e).exclusions
    ensures !e.Enrol? ==> Step(h, s, e).sources == s.sources
  {
  }

  /** The pattern matches the normalised path or the name. */
  predicate Hit(h: Host, pattern: string, target: string) {
    h.glob(Norm(h, target), pattern) || h.glob(h.tail(target), pattern)
  }

  /** An exclusion of this source, or of all, whose pattern matches the target. */
  ghost predicate Hidden(h: Host, s: State, target: string, id: string) {
    exists e :: e in s.exclusions && e.source in {None, Some(id)} && Hit(h, e.pattern, target)
  }

  /** The three kinds of decision: no source covers the target, the deepest one hides it, or that one decides. */
  lemma {:induction false} AssessedExactly(h: Host, s: State, target: string, p: Purpose)
    requires Sound(h) && DistinctPlaces(h, s.sources)
    ensures var d := Assess(h, s, target, p);
            && (d.NotEnrolled? <==> forall x :: x in s.sources ==> x.mode.Off? || !Under(h, x.root, target))
            && (d.Excluded? <==> exists x :: Deepest(h, s.sources, target, x) && Hidden(h, s, target, x.id))
            && (d.Excluded? ==> d.exclusion in s.exclusions && Hit(h, d.exclusion.pattern, target))
            && (forall x :: d.Decided? && d.source == x
                            <==> d.Decided? && Deepest(h, s.sources, target, x) && !Hidden(h, s, target, x.id))
  {
    MatchIsDeepest(h, s.sources, target);
    CoveringMembers(h, s.sources, target);
    var found := CoveringRows(h, s.sources, target);
    if found != [] {
      assert found[0] in s.sources;
      var x := MatchOf(h, s.sources, target).value;
      assert Deepest(h, s.sources, target, x);
      ReportedExclusion(h, s.exclusions, target, x.id);
      HiddenExactly(h, s, target, x.id);
    }
  }

  lemma {:induction false} HiddenExactly(h: Host, s: State, target: string, id: string)
    ensures Hidden(h, s, target, id) <==> exists e :: e in s.exclusions && Applies(h, e, target, id)
  {
    if Hidden(h, s, target, id) {
      var e :| e in s.exclusions && e.source in {None, Some(id)} && Hit(h, e.pattern, target);
      assert Applies(h, e, target, id);
    }
    if e :| e in s.exclusions && Applies(h, e, target, id) {
      assert e.source in {None, Some(id)} && Hit(h, e.pattern, target);
    }
  }

  lemma {:induction false} ExclusionsStay(h: Host, start: State, events: seq<Event>, end: State)
    requires Reaches(h, start, events, end)
    ensures forall x :: x in start.exclusions ==> x in end.exclusions
    decreases |events|
  {
    if events != [] {
      ExclusionsGrow(h, start, events[0]);
      ExclusionsStay(h, Step(h, start, events[0]), events[1..], end);
    }
  }

  /**
   After a call that is not refused, whatever follows it, a target matching the pattern is allowed for no purpose when
   that source decides it, or whichever does if the call named none; and the report is a hard one if the call was.
   */
  lemma {:induction false} ExcludedForGood(h: Host, start: State, pattern: string, source: Option<string>, hard: bool,
                                           events: seq<Event>, end: State, target: string, p: Purpose)
    requires h.clean(pattern) != ""
    requires source.Some? && source.value != "" ==> exists x :: x in start.sources && x.id == source.value
    requires Reaches(h, Step(h, start, Exclude(pattern, source, hard)), events, end)
    requires Hit(h, h.clean(pattern), target)
    requires source.Some? && MatchOf(h, end.sources, target).Some? ==>
               MatchOf(h, end.sources, target).value.id == source.value
    ensures !Allows(h, end, target, p)
    ensures var d := Assess(h, end, target, p); d.NotEnrolled? || (d.Excluded? && (hard ==> d.exclusion.hard))
  {
    var next, e := Step(h, start, Exclude(pattern, source, hard)), Exclusion(source, h.clean(pattern), hard);
    if source.Some? && source.value != "" {
      var x :| x in start.sources && x.id == source.value;
      var i :| 0 <= i < |start.sources| && start.sources[i] == x;
      assert HasId(start.sources, source.value);
    }
    assert e in next.exclusions;
    ExclusionsStay(h, next, events, end);
    if MatchOf(h, end.sources, target).Some? {
      var id := MatchOf(h, end.sources, target).value.id;
      assert Applies(h, e, target, id);
      ReportedExclusion(h, end.exclusions, target, id);
    }
  }

  /** Opening adds the default patterns in their order, each once, as hard exclusions of everything, or nothing. */
  lemma {:induction false} OpenedExactly(s: State, patterns: seq<string>)
    ensures var s' := Opened(s, patterns);
            && s'.sources == s.sources
            && (if exists e :: e in s.exclusions && e.hard && e.source.None? then s'.exclusions == s.exclusions
                else && |s'.exclusions| == |s.exclusions| + |patterns|
                     && s'.exclusions[..|s.exclusions|] == s.exclusions
                     && forall i :: 0 <= i < |patterns| ==>
                          s'.exclusions[|s.exclusions| + i] == Exclusion(None, patterns[i], true))
  {
    DefaultsExactly(patterns);
    if e :| e in s.exclusions && e.hard && e.source.None? {
      var i :| 0 <= i < |s.exclusions| && s.exclusions[i] == e;
      assert HasHardGlobal(s.exclusions);
    }
  }

  lemma {:induction false} DefaultsExactly(patterns: seq<string>)
    ensures var es := DefaultExclusions(patterns);
            |es| == |patterns| && forall i :: 0 <= i < |es| ==> es[i] == Exclusion(None, patterns[i], true)
  {
    if patterns != [] { DefaultsExactly(patterns[1..]); }
  }

  /** Every enrolled root keeps its id, and every exclusion stays, whatever is called later. */
  lemma {:induction false} IdsAndExclusionsPersist(h: Host, patterns: seq<string>, start: State, events: seq<Event>,
                                                   end: State, row: Source, row': Source)
    requires Inv(start, patterns) && Reaches(h, start, events, end)
    requires row in start.sources && row' in end.sources && row.root == row'.root
    ensures row'.id == row.id && forall x :: x in start.exclusions ==> x in end.exclusions
    decreases |events|
  {
    if events == [] {
      var i :| 0 <= i < |start.sources| && start.sources[i] == row;
      var j :| 0 <= j < |start.sources| && start.sources[j] == row';
    } else {
      var next := Step(h, start, events[0]);
      StepKeepsInv(h, patterns, start, events[0]);
      ExclusionsGrow(h, start, events[0]);
      var mid := RowPersists(h, patterns, start, events[0], row);
      IdsAndExclusionsPersist(h, patterns, next, events[1..], end, mid, row');
    }
  }

  lemma {:induction false} RowPersists(h: Host, patterns: seq<string>, s: State, e: Event, row: Source)
    returns (row': Source)
    requires Inv(s, patterns) && row in s.sources
    ensures row' in Step(h, s, e).sources && row'.root == row.root && row'.id == row.id
  {
    row' := row;
    if e.Enrol? && RequestRefusal(e.request, e.present).None? {
      var added := RowOf(e.request, e.newId, e.now);
      UpsertMembers(s.sources, added);
      if row.root == added.root { row' := UpsertHas(s.sources, added); }
    }
  }

  lemma {:induction false} UpsertHas(rows: seq<Source>, row: Source) returns (x: Source)
    ensures x in Upsert(rows, row) && x.root == row.root
  {
    if rows == [] { x := row; }
    else if rows[0].root == row.root { x := Upsert(rows, row)[0]; }
    else { x := UpsertHas(rows[1..], row); }
  }

  /** An exclusion placed on a source binds its root for good, through any number of enrolments of that root. */
  lemma {:induction false} SourceExclusionIsPermanent(h: Host, patterns: seq<string>, start: State, events: seq<Event>,
                                                      end: State, row: Source, e: Exclusion, target: string, p: Purpose)
    requires Inv(start, patterns) && Reaches(h, start, events, end) && row in start.sources && e in start.exclusions
    requires Applies(h, e, target, row.id)
    requires MatchOf(h, end.sources, target).Some? && MatchOf(h, end.sources, target).value.root == row.root
    ensures Assess(h, end, target, p).Excluded? && Assess(h, end, target, p).sourceId == row.id
  {
    MatchMember(h, end.sources, target);
    IdsAndExclusionsPersist(h, patterns, start, events, end, row, MatchOf(h, end.sources, target).value);
    ReportedExclusion(h, end.exclusions, target, row.id);
  }

  // ----- roots for provenance -----

  /** What the list holds: roots of the controller, or of any if it is empty, that may be traced. */
  lemma {:induction false} ListedExactly(s: State, controller: string, root: string)
    ensures Listed(s, controller, root)
            <==> exists x :: && x in s.sources && x.root == root && x.flags.content && x.mode in {Provenance, Managed}
                             && (controller == "" || x.controller == controller)
  {
    if x :| && x in s.sources && x.root == root && x.flags.content && x.mode in {Provenance, Managed}
            && (controller == "" || x.controller == controller) {
      var k :| 0 <= k < |s.sources| && s.sources[k] == x;
      assert ListedRow(s.sources[k], controller);
    }
  }

  /** A root that no exclusion hides is listed for its controller exactly when its own row allows tracing it. */
  lemma {:induction false} ListedIsTraceable(h: Host, patterns: seq<string>, s: State, row: Source)
    requires Sound(h) && Reachable(h, patterns, s) && DistinctPlaces(h, s.sources) && row in s.sources
    requires ExclusionOf(h, s.exclusions, row.root, row.id).None?
    ensures Listed(s, row.controller, row.root) <==> Assess(h, s, row.root, ToTrace) == Decided(true, row)
    ensures !row.mode.Off? ==> (Listed(s, row.controller, row.root) <==> Allows(h, s, row.root, ToTrace))
  {
    ReachableInv(h, patterns, s);
    MatchIsDeepest(h, s.sources, row.root);
    assert Listed(s, row.controller, row.root) <==> MayTrace(row.mode) && row.flags.content by {
      var i :| 0 <= i < |s.sources| && s.sources[i] == row;
      if MayTrace(row.mode) && row.flags.content { assert ListedRow(s.sources[i], row.controller); }
    }
    if !row.mode.Off? { assert Deepest(h, s.sources, row.root, row); }
  }

  /** The deepest source that is not OFF around the target may be traced, and no exclusion hides the target from it. */
  ghost predicate EnclosingTraces(h: Host, s: State, target: string) {
    exists x :: && Deepest(h, s.sources, target, x) && MayTrace(x.mode) && x.flags.content
                && !exists e :: e in s.exclusions && Applies(h, e, target, x.id)
  }

  /** The list and the decision agree on a root exactly when it is not OFF or no enclosing source traces it. */
  lemma {:induction false} ListingAgrees(h: Host, patterns: seq<string>, s: State, row: Source)
    requires Sound(h) && Reachable(h, patterns, s) && DistinctPlaces(h, s.sources) && row in s.sources
    requires ExclusionOf(h, s.exclusions, row.root, row.id).None?
    ensures (Listed(s, row.controller, row.root) <==> Allows(h, s, row.root, ToTrace))
            <==> (row.mode.Off? ==> !EnclosingTraces(h, s, row.root))
  {
    ListedIsTraceable(h, patterns, s, row);
    if row.mode.Off? { TracedThroughEnclosing(h, s, row.root); }
  }

  lemma {:induction false} TracedThroughEnclosing(h: Host, s: State, target: string)
    requires Sound(h) && DistinctPlaces(h, s.sources)
    ensures Allows(h, s, target, ToTrace) <==> EnclosingTraces(h, s, target)
  {
    MatchIsDeepest(h, s.sources, target);
    if MatchOf(h, s.sources, target).Some? {
      var x := MatchOf(h, s.sources, target).value;
      assert Deepest(h, s.sources, target, x);
      ReportedExclusion(h, s.exclusions, target, x.id);
    }
  }

  lemma {:induction false} DefaultPatterns(patterns: seq<string>)
    ensures forall e :: e in DefaultExclusions(patterns) ==> e.pattern in patterns
  {
    if patterns != [] {
      DefaultPatterns(patterns[1..]);
      assert patterns == [patterns[0]] + patterns[1..];
    }
  }

  predicate Untouched(h: Host, patterns: seq<string>, target: string) {
    forall x :: x in patterns ==> !h.glob(Norm(h, target), x) && !h.glob(h.tail(target), x)
  }

  lemma {:induction false} NoDefaultApplies(h: Host, patterns: seq<string>, target: string, id: string)
    requires Untouched(h, patterns, target)
    ensures ExclusionOf(h, Fresh(patterns).exclusions, target, id).None?
  {
    DefaultPatterns(patterns);
    ReportedExclusion(h, Fresh(patterns).exclusions, target, id);
  }

  /** The state after two enrolments in a new store. */
  function TwoEnrolled(patterns: seq<string>, outer: Request, inner: Request, id1: string, id2: string): State {
    Enrolled(Enrolled(Fresh(patterns), outer, true, id1, 0), inner, true, id2, 0)
  }

  lemma {:induction false} TwoEnrolledReachable(h: Host, patterns: seq<string>, outer: Request, inner: Request,
                                                id1: string, id2: string)
    requires id1 != id2
    ensures Reachable(h, patterns, TwoEnrolled(patterns, outer, inner, id1, id2))
  {
    var e1, e2 := Enrol(outer, true, id1, 0), Enrol(inner, true, id2, 0);
    var s1 := Step(h, Fresh(patterns), e1);
    assert [e1, e2][1..] == [e2] && [e2][1..] == [];
    assert Reaches(h, s1, [e2], Step(h, s1, e2));
    assert Reaches(h, Fresh(patterns), [e1, e2], TwoEnrolled(patterns, outer, inner, id1, id2));
  }

  /**
   An OFF root is skipped: enrolled inside a traceable source in a new store it may be traced, yet it is not listed.
   */
  lemma {:induction false} OffRootIsTracedUnlisted(h: Host, patterns: seq<string>, outer: Request, inner: Request,
                                                   id1: string, id2: string)
    requires Sound(h) && Under(h, outer.root, inner.root) && h.place(outer.root) != h.place(inner.root) && id1 != id2
    requires RequestRefusal(outer, true).None? && MayTrace(outer.mode.value) && outer.flags.content
    requires RequestRefusal(inner, true).None? && inner.mode == Some(Off) && Untouched(h, patterns, inner.root)
    ensures var s := TwoEnrolled(patterns, outer, inner, id1, id2);
            && Reachable(h, patterns, s)
            && Allows(h, s, inner.root, ToTrace) && !Listed(s, inner.controller, inner.root)
  {
    TwoEnrolledReachable(h, patterns, outer, inner, id1, id2);
    var r1, r2 := RowOf(outer, id1, 0), RowOf(inner, id2, 0);
    assert Upsert([r1], r2) == [r1, r2];
    MatchIsDeepest(h, [r1, r2], inner.root);
    assert Deepest(h, [r1, r2], inner.root, r1);
    NoDefaultApplies(h, patterns, inner.root, id1);
  }

  /** A host, and two requests, of which that is true. */
  lemma {:induction false} OffRootExample() returns (h: Host, outer: Request, inner: Request)
    ensures Sound(h) && Untouched(h, NEVER_TOUCH, inner.root)
    ensures var s := TwoEnrolled(NEVER_TOUCH, outer, inner, "1", "2");
            Reachable(h, NEVER_TOUCH, s) && Allows(h, s, inner.root, ToTrace)
            && !Listed(s, inner.controller, inner.root)
  {
    h := Host(p => if p == "/a/b" then AbsPath("", ["a", "b"]) else AbsPath("", ["a"]), p => p, (t, p) => false,
              p => p);
    outer := Request("c", "/a", Some(Provenance), Flags(true, true, false, false, false), "PRIVATE");
    inner := Request("c", "/a/b", Some(Off), Flags(false, false, false, false, false), "PRIVATE");
    assert h.place("/a/b").parts == ["a", "b"] && h.place("/a").parts == ["a"] && ["a"] <= ["a", "b"];
    OffRootIsTracedUnlisted(h, NEVER_TOUCH, outer, inner, "1", "2");
  }
}
