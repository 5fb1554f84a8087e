/** How one change of the tree looks from another path: what a step leaves observable as it was. */
module EvidenceFrames {
  import opened Effects
  import opened Order
  import opened EvidenceModel
  import opened EvidenceReceiver

  ghost predicate Clean(p: Path) { p != [] && GIT !in p }

  /** A directory that may be entered: no checkout, and nothing else in its place. */
  ghost predicate Passable(t: Tree, q: Path) { q in t && t[q].Directory? && q + [".git"] !in t }

  /** The first `n - 1` components may be entered and component `n` ends the walk. */
  ghost predicate StopsAt(t: Tree, d: Path, n: int) {
    0 < n <= |d| && !Passable(t, d[..n]) && forall m | 0 < m < n :: Passable(t, d[..m])
  }

  /** Opening a directory, spelled out: it is found when every directory on the way may be entered; otherwise the
      first that may not decides, absent when it is not there and blocked when it is. */
  lemma {:induction false} OpenDirIsExact(t: Tree, d: Path)
    ensures OpenDir(t, d).Found? <==> forall n :: 0 < n <= |d| ==> Passable(t, d[..n])
    ensures OpenDir(t, d).Absent? <==> exists n :: StopsAt(t, d, n) && d[..n] !in t
    ensures OpenDir(t, d).Blocked? <==> exists n :: StopsAt(t, d, n) && d[..n] in t
    decreases |d|
  {
    if d != [] {
      var a := Parent(d);
      OpenDirIsExact(t, a);
      hide Passable;
      assert forall n :: 0 < n <= |a| ==> a[..n] == d[..n];
      assert d[..|d|] == d;
      assert Passable(t, d) <==> d in t && t[d].Directory? && d + [GIT] !in t by { PassableIs(t, d); }
      forall n ensures StopsAt(t, d, n) <==> StopsAt(t, a, n) || (n == |d| && OpenDir(t, a).Found? && !Passable(t, d)) {
        assert n <= |a| ==> forall m | 0 < m < n :: a[..m] == d[..m];
      }
      assert StopsAt(t, d, |d|) <==> OpenDir(t, a).Found? && !Passable(t, d);
      assert !(d in t) ==> !Passable(t, d) by { PassableIs(t, d); }
    }
  }

  lemma PassableIs(t: Tree, q: Path)
    ensures Passable(t, q) <==> q in t && t[q].Directory? && q + [GIT] !in t
  {
  }

  lemma FoundIsDirectory(t: Tree, d: Path)
    requires OpenDir(t, d).Found? && d != []
    ensures d in t && t[d].Directory? && d + [GIT] !in t
  {
  }

  lemma LookupBelow(t: Tree, a: Path, d: Path)
    requires a <= d
    ensures !OpenDir(t, a).Found? ==> OpenDir(t, d) == OpenDir(t, a)
    ensures OpenDir(t, d).Found? ==> OpenDir(t, a).Found?
    decreases |d|
  {
    if a != d {
      assert a <= Parent(d);
      LookupBelow(t, a, Parent(d));
    }
  }

  ghost predicate SameAt(t: Tree, u: Tree, q: Path) {
    (q in t <==> q in u) && (q in t ==> t[q] == u[q])
  }

  lemma OpenDirAgree(t: Tree, u: Tree, d: Path)
    requires forall q: Path | q != [] && q <= d :: SameAt(t, u, q) && (q + [GIT] in t <==> q + [GIT] in u)
    ensures OpenDir(t, d) == OpenDir(u, d)
    decreases |d|
  {
    if d != [] {
      forall q: Path | q != [] && q <= Parent(d) ensures SameAt(t, u, q) && (q + [GIT] in t <==> q + [GIT] in u) {
        assert q <= d;
      }
      OpenDirAgree(t, u, Parent(d));
      assert SameAt(t, u, d);
    }
  }

  /** A change at `c` is invisible to look-ups that do not pass through `c`. */
  lemma ChangeAside(t: Tree, u: Tree, c: Path, d: Path)
    requires Clean(c) && !(c <= d)
    requires forall q: Path | q != c :: SameAt(t, u, q)
    ensures OpenDir(t, d) == OpenDir(u, d)
    ensures d != [] ==> ReceiverHash(t, d) == ReceiverHash(u, d)
  {
    forall q: Path | q != [] && q <= d ensures SameAt(t, u, q) && (q + [GIT] in t <==> q + [GIT] in u) {
      assert GIT in q + [GIT];
      assert SameAt(t, u, q + [GIT]);
    }
    OpenDirAgree(t, u, d);
    if d != [] {
      assert Parent(d) <= d;
      OpenDirAgree(t, u, Parent(d));
      assert SameAt(t, u, d);
    }
  }

  // ---------- one directory made ----------

  ghost predicate CanMake(t: Tree, c: Path) {
    Clean(c) && WellFormed(t) && c !in t && OpenDir(t, Parent(c)).Found?
  }

  lemma MadeIsWellFormed(t: Tree, c: Path)
    requires CanMake(t, c)
    ensures WellFormed(t[c := Directory]) && OpenDir(t[c := Directory], c).Found?
    ensures OpenDir(t[c := Directory], Parent(c)).Found?
    ensures !HasChild(t, c)
  {
    var u := t[c := Directory];
    if |c| > 1 { FoundIsDirectory(t, Parent(c)); }
    ChangeAside(t, u, c, Parent(c));
    assert Parent(c + [GIT]) == c;
    assert forall p: Path :: |p| == |c| + 1 && c < p ==> Parent(p) == c;
  }

  /** Making a directory changes nothing that any other path shows. */
  lemma MakeFrame(t: Tree, c: Path, p: Path)
    requires CanMake(t, c) && p != c
    ensures OpenDir(t[c := Directory], p).Blocked? <==> OpenDir(t, p).Blocked?
    ensures p != [] ==> ReceiverHash(t[c := Directory], p) == ReceiverHash(t, p)
  {
    var u := t[c := Directory];
    if !(c <= p) {
      ChangeAside(t, u, c, p);
    } else {
      assert c < p && c <= Parent(p);
      LookupBelow(t, c, Parent(p));
      LookupBelow(t, c, p);
      MadeIsWellFormed(t, c);
      var a := p[..|c| + 1];
      assert a <= p && Parent(a) == c;
      assert a !in t && a !in u;
      assert OpenDir(u, a).Absent?;
      LookupBelow(u, a, p);
      if a != p {
        assert a <= Parent(p);
        LookupBelow(u, a, Parent(p));
      } else {
        assert Parent(p) == c;
      }
    }
  }

  lemma MakeBlocked(t: Tree, c: Path, d: Path)
    requires CanMake(t, c)
    ensures OpenDir(t[c := Directory], d).Blocked? <==> OpenDir(t, d).Blocked?
  {
    if d == c {
      MadeIsWellFormed(t, c);
    } else {
      MakeFrame(t, c, d);
    }
  }

  // ---------- one empty directory removed ----------

  ghost predicate CanRetire(t: Tree, c: Path) {
    Clean(c) && WellFormed(t) && Prunable(t, c) && OpenDir(t, Parent(c)).Found?
  }

  /** Removing an empty directory undoes making it. */
  lemma RetireUndoesMake(t: Tree, c: Path)
    requires CanRetire(t, c)
    ensures CanMake(t - {c}, c) && (t - {c})[c := Directory] == t
    ensures OpenDir(t - {c}, Parent(c)).Found?
  {
    hide OpenDir;
    var u := t - {c};
    ChangeAside(t, u, c, Parent(c));
    RetiredIsTree(t, c);
  }

  lemma RetiredIsTree(t: Tree, c: Path)
    requires CanRetire(t, c)
    ensures WellFormed(t - {c}) && (t - {c})[c := Directory] == t
  {
    hide OpenDir;
    forall p: Path | p in t && |p| > 1 ensures Parent(p) != c {
      ChildIsBelow(p);
    }
  }

  lemma ChildIsBelow(p: Path)
    requires p != []
    ensures Parent(p) < p && |p| == |Parent(p)| + 1
  {
  }

  lemma RetireFrame(t: Tree, c: Path, p: Path)
    requires CanRetire(t, c) && p != c
    ensures p != [] ==> ReceiverHash(t - {c}, p) == ReceiverHash(t, p)
  {
    RetireUndoesMake(t, c);
    MakeFrame(t - {c}, c, p);
  }

  lemma RetireBlocked(t: Tree, c: Path, d: Path)
    requires CanRetire(t, c)
    ensures OpenDir(t - {c}, d).Blocked? <==> OpenDir(t, d).Blocked?
  {
    RetireUndoesMake(t, c);
    MakeBlocked(t - {c}, c, d);
  }

  // ---------- files ----------

  ghost predicate CanHoldFile(t: Tree, c: Path) {
    Clean(c) && WellFormed(t) && OpenDir(t, Parent(c)).Found? && (c in t ==> !t[c].Directory?)
  }

  lemma FileKeepsWellFormed(t: Tree, c: Path, bytes: Bytes)
    requires CanHoldFile(t, c)
    ensures WellFormed(t[c := File(bytes)]) && WellFormed(t - {c})
    ensures OpenDir(t[c := File(bytes)], Parent(c)).Found? && OpenDir(t - {c}, Parent(c)).Found?
  {
    if |c| > 1 { FoundIsDirectory(t, Parent(c)); }
    ChangeAside(t, t[c := File(bytes)], c, Parent(c));
    ChangeAside(t, t - {c}, c, Parent(c));
    var u := t - {c};
    forall p | p in u ensures p != [] && (|p| > 1 ==> Parent(p) in u && u[Parent(p)].Directory?) {
    }
  }

  // ---------- a chain of directories made ----------

  /** Exactly the missing ancestors appear, as directories. */
  lemma MakeDirsAt(t: Tree, d: Path, q: Path)
    ensures q in MakeDirs(t, d) <==> q in t || (q != [] && q <= d)
    ensures q in t ==> MakeDirs(t, d)[q] == t[q]
    ensures q in MakeDirs(t, d) && q !in t ==> MakeDirs(t, d)[q] == Directory
    decreases |d|
  {
    if d != [] {
      MakeDirsAt(t, Parent(d), q);
      assert q <= d <==> q == d || q <= Parent(d);
      MakeDirsAt(t, Parent(d), d);
    }
  }

  lemma MakeDirsFacts(t: Tree, d: Path)
    requires WellFormed(t) && !OpenDir(t, d).Blocked? && GIT !in d
    ensures WellFormed(MakeDirs(t, d)) && OpenDir(MakeDirs(t, d), d).Found?
    decreases |d|
  {
    if d != [] {
      var a := Parent(d);
      LookupBelow(t, a, d);
      MakeDirsFacts(t, a);
      hide OpenDir, WellFormed;
      var u := MakeDirs(t, a);
      MakeDirsAt(t, a, d);
      if d in u {
        MakeDirsFrame(t, a, d);
        HeldOpens(u, d);
      } else {
        MadeIsWellFormed(u, d);
      }
    }
  }

  lemma HeldOpens(t: Tree, d: Path)
    requires d != [] && d in t && OpenDir(t, Parent(d)).Found? && !OpenDir(t, d).Blocked?
    ensures OpenDir(t, d).Found?
  {
  }

  lemma DirChain(t: Tree, p: Path, q: Path)
    requires WellFormed(t) && p in t && q != [] && q <= p
    ensures q in t && (q != p ==> t[q].Directory?)
    decreases |p|
  {
    if q != p {
      assert q <= Parent(p);
      DirChain(t, Parent(p), q);
    }
  }

  lemma MakeDirsFrame(t: Tree, d: Path, p: Path)
    requires WellFormed(t) && !OpenDir(t, d).Blocked? && GIT !in d
    ensures OpenDir(MakeDirs(t, d), p).Blocked? <==> OpenDir(t, p).Blocked?
    ensures p != [] && !(p <= d) ==> ReceiverHash(MakeDirs(t, d), p) == ReceiverHash(t, p)
    decreases |d|
  {
    if d != [] {
      var a := Parent(d);
      LookupBelow(t, a, d);
      MakeDirsFrame(t, a, p);
      MakeDirsFacts(t, a);
      var u := MakeDirs(t, a);
      if d !in u {
        MakeBlocked(u, d, p);
        if p != [] && !(p <= d) {
          MakeFrame(u, d, p);
        }
      }
    }
  }

  lemma MakeDirsTwice(t: Tree, a: Path, d: Path)
    requires WellFormed(t) && !OpenDir(t, d).Blocked? && GIT !in d && a <= d
    ensures !OpenDir(MakeDirs(t, a), d).Blocked? && WellFormed(MakeDirs(t, a))
    ensures MakeDirs(MakeDirs(t, a), d) == MakeDirs(t, d)
  {
    LookupBelow(t, a, d);
    MakeDirsFacts(t, a);
    MakeDirsFrame(t, a, d);
    var m, v := MakeDirs(t, a), MakeDirs(t, d);
    var u := MakeDirs(m, d);
    forall q ensures SameAt(u, v, q) {
      MakeDirsAt(t, a, q);
      MakeDirsAt(m, d, q);
      MakeDirsAt(t, d, q);
    }
    SameTree(u, v);
  }

  lemma SameTree(u: Tree, v: Tree)
    requires forall q :: SameAt(u, v, q)
    ensures u == v
  {
    forall q ensures (q in u <==> q in v) && (q in u ==> u[q] == v[q]) {
      assert SameAt(u, v, q);
    }
    assert u.Keys == v.Keys;
  }
}
