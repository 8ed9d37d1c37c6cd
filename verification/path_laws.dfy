/**
  Properties of route-path composition: trailing slashes, rootedness,
  idempotence of `Clean`, and that nesting groups is the same as one group
  whose relative path joins the two.
 */
module PathLaws {
  import opened Paths

  predicate Rooted(p: string) {
    |p| > 0 && p[0] == '/'
  }

  /** Scanning is a left fold, so it can be done in two parts. */
  lemma {:induction false} ScanAppend(st: Scan, a: string, b: string)
    ensures ScanFrom(st, a + b) == ScanFrom(ScanFrom(st, a), b)
    decreases |a|
  {
    if |a| > 0 {
      assert (a + b)[0] == a[0];
      assert (a + b)[1..] == a[1..] + b;
      ScanAppend(ScanChar(st, a[0]), a[1..], b);
    } else {
      assert a + b == b;
    }
  }

  /** Pieces already read do not affect how the rest is scanned. */
  lemma {:induction false} ScanPrefix(prefix: seq<Piece>, st: Scan, b: string)
    ensures ScanFrom(Scan(prefix + st.done, st.current), b)
         == Scan(prefix + ScanFrom(st, b).done, ScanFrom(st, b).current)
    decreases |b|
  {
    if |b| > 0 {
      var st' := ScanChar(st, b[0]);
      assert ScanChar(Scan(prefix + st.done, st.current), b[0]) == Scan(prefix + st'.done, st'.current);
      ScanPrefix(prefix, st', b[1..]);
    }
  }

  /** A piece without '/' is read into the current piece. */
  lemma {:induction false} ScanPiece(st: Scan, e: Piece)
    ensures ScanFrom(st, e) == Scan(st.done, st.current + e)
    decreases |e|
  {
    if |e| > 0 {
      assert e[0] in e;
      assert '/' !in e[1..] by {
        forall c | c in e[1..] ensures c in e { }
      }
      ScanPiece(ScanChar(st, e[0]), e[1..]);
      assert st.current + [e[0]] + e[1..] == st.current + e;
    } else {
      assert st.current + e == st.current;
    }
  }

  lemma SplitNoSlash(e: Piece)
    ensures Split(e) == [e]
  {
    ScanPiece(Scan([], ""), e);
    assert "" + e == e;
  }

  /** Splitting at a '/' splits the two sides independently. */
  lemma SplitConcat(a: string, b: string)
    ensures Split(a + "/" + b) == Split(a) + Split(b)
  {
    var init := Scan([], "");
    var sa := ScanFrom(init, a);
    ScanAppend(init, a + "/", b);
    ScanAppend(init, a, "/");
    assert ScanFrom(sa, "/") == Scan(sa.done + [sa.current], "");
    ScanPrefix(sa.done + [sa.current], init, b);
    assert sa.done + [sa.current] + init.done == sa.done + [sa.current];
  }

  /** Rejoined elements split back into the same elements. */
  lemma {:induction false} SplitJoin(st: seq<Elem>)
    requires |st| > 0
    ensures Split(JoinElements(st)) == st
  {
    SplitNoSlash(st[0]);
    if |st| > 1 {
      SplitJoin(st[1..]);
      SplitConcat(st[0], JoinElements(st[1..]));
      assert [st[0]] + st[1..] == st;
    }
  }

  /** Resolving is a left fold, so it can be done in two parts. */
  lemma {:induction false} ResolveAppend(rooted: bool, p1: seq<Piece>, p2: seq<Piece>, stack: seq<Elem>)
    ensures Resolve(rooted, p1 + p2, stack) == Resolve(rooted, p2, Resolve(rooted, p1, stack))
    decreases |p1|
  {
    if |p1| > 0 {
      assert (p1 + p2)[1..] == p1[1..] + p2;
      assert (p1 + p2)[0] == p1[0];
      ResolveAppend(rooted, p1[1..], p2, ResolvePiece(rooted, p1[0], stack));
    } else {
      assert p1 + p2 == p2;
    }
  }

  /** Under a root, elements with no ".." are kept as they are. */
  lemma {:induction false} ResolveKeepsElements(st: seq<Elem>, stack: seq<Elem>)
    requires NoDotDot(st)
    ensures Resolve(true, st, stack) == stack + st
    decreases |st|
  {
    if |st| > 0 {
      ResolveKeepsElements(st[1..], stack + [st[0]]);
      assert stack + [st[0]] + st[1..] == stack + st;
    }
  }

  /** The kept elements of a rooted path. */
  function RootedElements(p: string): (st: seq<Elem>)
    requires Rooted(p)
    ensures NoDotDot(st)
  {
    Resolve(true, Split(p), [])
  }

  lemma CleanRootedShape(p: string)
    requires Rooted(p)
    ensures Clean(p) == "/" + JoinElements(RootedElements(p))
  {
  }

  /** The pieces of a cleaned rooted path resolve back to its elements. */
  lemma ResolveSplitClean(p: string)
    requires Rooted(p)
    ensures Resolve(true, Split(Clean(p)), []) == RootedElements(p)
  {
    var st := RootedElements(p);
    CleanRootedShape(p);
    assert Clean(p) == "" + "/" + JoinElements(st);
    SplitConcat("", JoinElements(st));
    if |st| == 0 {
      assert Split(Clean(p)) == ["", ""];
      assert Resolve(true, ["", ""], []) == Resolve(true, [""], []) by {
        assert ["", ""][1..] == [""];
      }
      assert Resolve(true, [""], []) == Resolve(true, [], []) by {
        assert [""][1..] == [];
      }
    } else {
      SplitJoin(st);
      assert Split(Clean(p)) == [""] + st;
      ResolveKeepsElements(st, []);
      assert ([""] + st)[1..] == st;
    }
  }

  /** `Clean` is idempotent on rooted paths. */
  lemma CleanIdempotent(p: string)
    requires Rooted(p)
    ensures Clean(Clean(p)) == Clean(p)
  {
    ResolveSplitClean(p);
  }

  /** Cleaning a rooted prefix first does not change the cleaned whole. */
  lemma CleanAbsorbsPrefix(p: string, b: string)
    requires Rooted(p)
    ensures Clean(Clean(p) + "/" + b) == Clean(p + "/" + b)
  {
    var st := RootedElements(p);
    ResolveSplitClean(p);
    SplitConcat(Clean(p), b);
    SplitConcat(p, b);
    ResolveAppend(true, Split(Clean(p)), Split(b), []);
    ResolveAppend(true, Split(p), Split(b), []);
    assert (Clean(p) + "/" + b)[0] == '/';
    assert (p + "/" + b)[0] == '/';
  }

  /** A doubled '/' is an empty element, which `Clean` drops. */
  lemma CleanDoubleSlash(p: string, b: string)
    requires Rooted(p)
    ensures Clean(p + "/" + ("/" + b)) == Clean(p + "/" + b)
  {
    SplitConcat(p, "/" + b);
    SplitConcat("", b);
    assert "" + "/" + b == "/" + b;
    SplitConcat(p, b);
    var sb := Split(b);
    assert Split(p) + Split("/" + b) == Split(p) + [""] + sb;
    ResolveAppend(true, Split(p) + [""], sb, []);
    ResolveAppend(true, Split(p), [""], []);
    ResolveAppend(true, Split(p), sb, []);
    assert (p + "/" + ("/" + b))[0] == '/';
    assert (p + "/" + b)[0] == '/';
  }

  /** A group under a rooted path stays rooted, whatever the relative path. */
  lemma ToAbsPathRooted(absPath: string, relPath: string)
    ensures Rooted(absPath) ==> Rooted(ToAbsPath(absPath, relPath))
  {
    if Rooted(absPath) && |relPath| > 0 {
      assert (absPath + "/" + relPath)[0] == '/';
    }
  }

  /** Joining onto a cleaned rooted path, with or without a trailing '/', is
      cleaning the joined original. */
  lemma JoinAfterClean(p: string, relB: string)
    requires Rooted(p) && |relB| > 0
    ensures Join(Clean(p), relB) == Clean(p + "/" + relB)
    ensures Join(Clean(p) + "/", relB) == Clean(p + "/" + relB)
  {
    CleanAbsorbsPrefix(p, relB);
    assert (Clean(p) + "/") + "/" + relB == Clean(p) + "/" + ("/" + relB);
    CleanAbsorbsPrefix(p, "/" + relB);
    CleanDoubleSlash(p, relB);
  }

  /** Under a base, a non-empty relative path gives the cleaned joined path,
      possibly followed by one '/'. */
  lemma ToAbsPathShape(base: string, rel: string)
    requires |base| > 0 && |rel| > 0
    ensures ToAbsPath(base, rel) in {Clean(base + "/" + rel), Clean(base + "/" + rel) + "/"}
  {
  }

  lemma RegroupSlashes(base: string, relA: string, relB: string)
    ensures base + "/" + (relA + "/" + relB) == (base + "/" + relA) + "/" + relB
  {
  }

  /** Joining under a group's path is joining under its base with the group's
      relative path in front. */
  lemma JoinUnderGroup(base: string, relA: string, relB: string)
    requires Rooted(base) && |relA| > 0 && |relB| > 0
    ensures Join(ToAbsPath(base, relA), relB) == Join(base, relA + "/" + relB)
  {
    var p := base + "/" + relA;
    assert Rooted(p);
    JoinAfterClean(p, relB);
    ToAbsPathShape(base, relA);
    RegroupSlashes(base, relA, relB);
  }

  /** Nesting: the group `relB` inside the group `relA` of a rooted base has
      the same path as the group `relA + "/" + relB` of that base. */
  lemma NestedToAbsPath(base: string, relA: string, relB: string)
    requires Rooted(base) && |relA| > 0 && |relB| > 0
    ensures ToAbsPath(ToAbsPath(base, relA), relB) == ToAbsPath(base, relA + "/" + relB)
  {
    JoinUnderGroup(base, relA, relB);
    var rel := relA + "/" + relB;
    assert rel[|rel| - 1] == relB[|relB| - 1];
  }

  lemma CleanExampleApi()
    ensures Clean("//api/") == "/api"
  {
  }

  /** Worked examples of the group paths the router registers. */
  lemma ToAbsPathExamples()
    ensures ToAbsPath("/", "") == "/"
    ensures ToAbsPath("/", "api/") == "/api/"
  {
    assert "/" + "/" + "api/" == "//api/";
    CleanExampleApi();
    assert Join("/", "api/") == "/api";
    assert "/api"[3] == 'i';
  }
}
