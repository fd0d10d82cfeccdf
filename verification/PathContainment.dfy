/** Containment of normalised absolute paths, decided on their text by a prefix test. */
module PathContainment {

  /** A drive or nothing, then the components. */
  datatype AbsPath = AbsPath(anchor: string, parts: seq<string>)

  predicate NoSlash(s: string) { forall i :: 0 <= i < |s| ==> s[i] != '/' }

  predicate Normalised(p: AbsPath) {
    NoSlash(p.anchor) && forall i :: 0 <= i < |p.parts| ==> p.parts[i] != "" && NoSlash(p.parts[i])
  }

  function Join(parts: seq<string>): string {
    if parts == [] then "" else if |parts| == 1 then parts[0] else parts[0] + "/" + Join(parts[1..])
  }

  function Text(p: AbsPath): string { p.anchor + "/" + Join(p.parts) }

  function StripSlashes(s: string): string {
    if s != "" && s[|s| - 1] == '/' then StripSlashes(s[..|s| - 1]) else s
  }

  /** target == root or target.startswith(root.rstrip("/") + "/") */
  predicate EnclosesText(root: string, target: string) {
    target == root || StripSlashes(root) + "/" <= target
  }

  predicate Contains(root: AbsPath, target: AbsPath) {
    root.anchor == target.anchor && root.parts <= target.parts
  }

  // ----- paths as slash-terminated segments -----

  function Segments(p: AbsPath): seq<string> { [p.anchor] + p.parts }

  function Terminated(segs: seq<string>): string {
    if segs == [] then "" else segs[0] + "/" + Terminated(segs[1..])
  }

  predicate AllNoSlash(segs: seq<string>) { forall i :: 0 <= i < |segs| ==> NoSlash(segs[i]) }

  /** A segment without slashes is read off the front of a terminated text in one way. */
  lemma {:induction false} FirstSegment(x: string, xs: string, y: string, ys: string)
    requires NoSlash(x) && NoSlash(y) && x + "/" + xs <= y + "/" + ys
    ensures x == y && xs <= ys
  {
    var a, b := x + "/" + xs, y + "/" + ys;
    assert a[|x|] == '/' && b[|y|] == '/';
    assert forall i :: 0 <= i < |a| ==> a[i] == b[i];
    assert forall i :: 0 <= i < |y| ==> b[i] == y[i];
    assert b[|x|] == '/' && |y| <= |x|;
    assert forall i :: 0 <= i < |x| ==> a[i] == x[i];
    assert a[|y|] == '/' && |x| <= |y|;
    assert x == a[..|x|] == b[..|y|] == y;
    assert xs == a[|x| + 1..] && ys == b[|y| + 1..];
  }

  lemma {:induction false} TerminatedPrefix(a: seq<string>, b: seq<string>)
    requires AllNoSlash(a) && AllNoSlash(b)
    ensures Terminated(a) <= Terminated(b) <==> a <= b
  {
    if a != [] && b != [] {
      TerminatedPrefix(a[1..], b[1..]);
      assert a == [a[0]] + a[1..] && b == [b[0]] + b[1..];
      if Terminated(a) <= Terminated(b) {
        FirstSegment(a[0], Terminated(a[1..]), b[0], Terminated(b[1..]));
        assert a <= b;
      }
      if a <= b {
        assert a[0] == b[0] && a[1..] <= b[1..];
        var ta, tb := Terminated(a[1..]), Terminated(b[1..]);
        assert tb == ta + tb[|ta|..];
        assert Terminated(b) == Terminated(a) + tb[|ta|..];
      }
    }
  }

  lemma {:induction false} JoinTerminated(parts: seq<string>)
    ensures parts != [] ==> Join(parts) + "/" == Terminated(parts)
  {
    if |parts| > 1 {
      JoinTerminated(parts[1..]);
      assert Join(parts) + "/" == parts[0] + "/" + (Join(parts[1..]) + "/");
    }
  }

  lemma {:induction false} JoinEnd(parts: seq<string>)
    requires parts != [] && forall i :: 0 <= i < |parts| ==> parts[i] != "" && NoSlash(parts[i])
    ensures Join(parts) != "" && Join(parts)[|Join(parts)| - 1] != '/'
  {
    if |parts| > 1 { JoinEnd(parts[1..]); }
  }

  /** The text with its trailing slashes stripped and one put back. */
  lemma {:induction false} StrippedText(p: AbsPath)
    requires Normalised(p)
    ensures StripSlashes(Text(p)) + "/" == Terminated(Segments(p))
    ensures p.parts == [] ==> Text(p) == Terminated(Segments(p))
    ensures p.parts != [] ==> Text(p) + "/" == Terminated(Segments(p))
  {
    assert Segments(p)[1..] == p.parts;
    if p.parts == [] {
      assert Text(p)[..|Text(p)| - 1] == p.anchor;
    } else {
      JoinEnd(p.parts);
      JoinTerminated(p.parts);
      assert Text(p) + "/" == p.anchor + "/" + (Join(p.parts) + "/");
    }
  }

  /** The prefix test on texts holds exactly when the root's components are a prefix of the target's. */
  lemma {:induction false} EnclosesIsContainment(root: AbsPath, target: AbsPath)
    requires Normalised(root) && Normalised(target)
    ensures EnclosesText(Text(root), Text(target)) <==> Contains(root, target)
  {
    StrippedText(root);
    StrippedText(target);
    TerminatedPrefix(Segments(root), Segments(target));
    SegmentsPrefix(root, target);
    var a, b := Terminated(Segments(root)), Terminated(Segments(target));
    if Text(target) == Text(root) { TextDetermines(root, target); }
    if target.parts != [] {
      assert b == Text(target) + "/";
      if a <= Text(target) { assert a <= b; }
      if a == b {
        TerminatedPrefix(Segments(target), Segments(root));
        SegmentsPrefix(target, root);
        assert root.parts == target.parts && root == target;
      } else if a <= b {
        assert a <= Text(target);
      }
    }
  }

  lemma {:induction false} SegmentsPrefix(p: AbsPath, q: AbsPath)
    ensures Segments(p) <= Segments(q) <==> Contains(p, q)
  {
    assert Segments(p)[1..] == p.parts && Segments(q)[1..] == q.parts;
    if Contains(p, q) { assert Segments(q) == Segments(p) + q.parts[|p.parts|..]; }
    if Segments(p) <= Segments(q) {
      assert p.anchor == Segments(p)[0] == Segments(q)[0] == q.anchor;
      forall i | 0 <= i < |p.parts| ensures p.parts[i] == q.parts[i] {
        assert Segments(p)[i + 1] == Segments(q)[i + 1];
      }
    }
  }

  /** Different normalised paths have different texts. */
  lemma {:induction false} TextDetermines(p: AbsPath, q: AbsPath)
    requires Normalised(p) && Normalised(q) && Text(p) == Text(q)
    ensures p == q
  {
    StrippedText(p);
    StrippedText(q);
    TerminatedPrefix(Segments(p), Segments(q));
    TerminatedPrefix(Segments(q), Segments(p));
    SegmentsPrefix(p, q);
    SegmentsPrefix(q, p);
  }

  /** Paths containing one target form a chain. */
  lemma ContainersFormChain(p: AbsPath, q: AbsPath, target: AbsPath)
    requires Contains(p, target) && Contains(q, target)
    ensures Contains(p, q) || Contains(q, p)
  {
  }

  /** Along a chain the deeper path has the longer text. */
  lemma {:induction false} DeeperIsLonger(p: AbsPath, q: AbsPath)
    requires Normalised(p) && Normalised(q) && Contains(p, q) && p != q
    ensures |Text(p)| < |Text(q)|
  {
    var tail := q.parts[|p.parts|..];
    assert q.parts == p.parts + tail && tail != [];
    JoinGrows(p.parts, tail);
  }

  lemma {:induction false} JoinGrows(a: seq<string>, b: seq<string>)
    requires b != [] && b[0] != ""
    ensures |Join(a)| < |Join(a + b)|
  {
    if a == [] {
      assert a + b == b;
    } else {
      assert (a + b)[1..] == a[1..] + b;
      JoinGrows(a[1..], b);
    }
  }
}
