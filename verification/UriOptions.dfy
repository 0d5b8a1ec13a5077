/** Decomposition of a URI's path and query into options, and their recomposition
    (sections 6.4 and 6.5 of RFC 7252). */
module UriOptions {
  import opened OptionTable
  import opened OptionList
  import opened Options

  const SLASH: byte := 47
  const AMPERSAND: byte := 38
  /** Size of the local buffers path and query are copied to. */
  const BUFFER: nat := 1024

  /** Position of the first separator, or the end. */
  function Cut(s: bytes, sep: byte): (k: nat)
    ensures k <= |s| && (k < |s| ==> s[k] == sep)
    ensures forall i :: 0 <= i < k ==> s[i] != sep
  {
    if s == [] || s[0] == sep then 0 else 1 + Cut(s[1..], sep)
  }

  /** The nonempty pieces between separators. */
  function Pieces(s: bytes, sep: byte): seq<bytes> {
    if s == [] then []
    else
      var k := Cut(s, sep);
      (if k == 0 then [] else [s[..k]]) + (if k == |s| then [] else Pieces(s[k + 1..], sep))
  }

  lemma NoPieces(sep: byte)
    ensures Pieces([], sep) == []
  {}

  lemma UnfoldPieces(s: bytes, sep: byte)
    requires s != []
    ensures var k := Cut(s, sep);
            Pieces(s, sep) == (if k == 0 then [] else [s[..k]])
                              + Pieces(if k == |s| then [] else s[k + 1..], sep)
  {}

  predicate ArePieces(ps: seq<bytes>, sep: byte) {
    forall i :: 0 <= i < |ps| ==> ps[i] != [] && sep !in ps[i]
  }

  /** Each piece with a slash before it. */
  function Path(ps: seq<bytes>): bytes {
    if ps == [] then [] else [SLASH] + ps[0] + Path(ps[1..])
  }

  function ComposedPath(ps: seq<bytes>): bytes {
    if Path(ps) == [] then [SLASH] else Path(ps)
  }

  /** The query as it is composed, a separator going in only once something is there. */
  function Joined(ps: seq<bytes>): bytes {
    if ps == [] then []
    else
      var q := Joined(ps[..|ps| - 1]);
      (if q == [] then [] else q + [AMPERSAND]) + ps[|ps| - 1]
  }

  lemma {:induction false} QueryAppend(ps: seq<bytes>, p: bytes)
    requires ps != []
    ensures Query(ps + [p]) == Query(ps) + [AMPERSAND] + p
  {
    assert (ps + [p])[1..] == ps[1..] + [p];
    if |ps| > 1 {
      QueryAppend(ps[1..], p);
    }
  }

  lemma {:induction false} JoinedIsQuery(ps: seq<bytes>)
    requires ArePieces(ps, AMPERSAND)
    ensures Joined(ps) == Query(ps) && (ps != [] ==> Query(ps) != [])
  {
    if |ps| > 1 {
      var n := |ps| - 1;
      JoinedIsQuery(ps[..n]);
      QueryAppend(ps[..n], ps[n]);
      assert ps == ps[..n] + [ps[n]];
    } else if |ps| == 1 {
      assert ps[..0] == [];
    }
  }

  /** The pieces with separators in between. */
  function Query(ps: seq<bytes>): bytes {
    if ps == [] then [] else if |ps| == 1 then ps[0] else ps[0] + [AMPERSAND] + Query(ps[1..])
  }

  ghost predicate NoEmptyPiece(s: bytes, sep: byte) {
    forall i, j :: 0 <= i < j < |s| && j == i + 1 ==> s[i] != sep || s[j] != sep
  }

  /** "/" alone, or a path that starts with a slash and has no empty segment. */
  ghost predicate CleanPath(p: bytes) {
    p == [SLASH] || (|p| > 1 && p[0] == SLASH && p[|p| - 1] != SLASH && NoEmptyPiece(p, SLASH))
  }

  ghost predicate CleanQuery(q: bytes) {
    q == [] || (q[0] != AMPERSAND && q[|q| - 1] != AMPERSAND && NoEmptyPiece(q, AMPERSAND))
  }

  lemma {:induction false} PiecesArePieces(s: bytes, sep: byte)
    ensures ArePieces(Pieces(s, sep), sep)
  {
    hide Pieces;
    if s == [] {
      NoPieces(sep);
    } else {
      UnfoldPieces(s, sep);
      var k := Cut(s, sep);
      assert sep !in s[..k];
      NoPieces(sep);
      if k < |s| {
        PiecesArePieces(s[k + 1..], sep);
      }
    }
  }

  lemma {:induction false} PathIsClean(ps: seq<bytes>)
    requires ArePieces(ps, SLASH) && ps != []
    ensures var p := Path(ps);
            |p| > 1 && p[0] == SLASH && p[1] != SLASH && p[|p| - 1] != SLASH && NoEmptyPiece(p, SLASH)
  {
    var head, rest := [SLASH] + ps[0], Path(ps[1..]);
    assert head[1] == ps[0][0] && ps[0][0] in ps[0];
    assert head[|head| - 1] == ps[0][|ps[0]| - 1] && ps[0][|ps[0]| - 1] in ps[0];
    assert NoEmptyPiece(head, SLASH) by {
      assert forall i :: 0 < i < |head| ==> head[i] == ps[0][i - 1] && ps[0][i - 1] in ps[0];
    }
    if |ps| > 1 {
      assert ArePieces(ps[1..], SLASH);
      PathIsClean(ps[1..]);
    } else {
      assert head + rest == head;
    }
  }

  lemma {:induction false} CutPiece(a: bytes, rest: bytes, sep: byte)
    requires sep !in a && (rest != [] ==> rest[0] == sep)
    ensures Cut(a + rest, sep) == |a|
  {
    if a == [] {
      assert a + rest == rest;
    } else {
      assert (a + rest)[0] == a[0] && a[0] in a;
      assert (a + rest)[1..] == a[1..] + rest;
      CutPiece(a[1..], rest, sep);
    }
  }

  lemma SkipSeparator(q: bytes, sep: byte)
    ensures Pieces([sep] + q, sep) == Pieces(q, sep)
  {
    var p := [sep] + q;
    UnfoldPieces(p, sep);
    assert p[1..] == q;
    NoPieces(sep);
    hide Pieces;
  }

  lemma TakePiece(a: bytes, rest: bytes, sep: byte)
    requires a != [] && sep !in a && (rest != [] ==> rest[0] == sep)
    ensures Pieces(a + rest, sep) == [a] + Pieces(rest, sep)
  {
    hide Pieces, Cut;
    var q := a + rest;
    UnfoldPieces(q, sep);
    CutPiece(a, rest, sep);
    assert q[..|a|] == a;
    NoPieces(sep);
    if rest != [] {
      assert q[|a| + 1..] == rest[1..];
      SkipSeparator(rest[1..], sep);
      assert rest == [sep] + rest[1..];
    }
  }

  /** A slash, a piece, and what follows. */
  lemma PiecesOfPath(a: bytes, rest: bytes)
    requires a != [] && SLASH !in a && (rest != [] ==> rest[0] == SLASH)
    ensures Pieces([SLASH] + a + rest, SLASH) == [a] + Pieces(rest, SLASH)
  {
    hide Pieces;
    assert [SLASH] + a + rest == [SLASH] + (a + rest);
    SkipSeparator(a + rest, SLASH);
    TakePiece(a, rest, SLASH);
  }

  lemma PathCons(a: bytes, ps: seq<bytes>)
    ensures Path([a] + ps) == [SLASH] + a + Path(ps)
  {
    assert ([a] + ps)[1..] == ps;
  }

  /** A clean path is rebuilt piece by piece. */
  lemma {:induction false} CleanPathRebuilt(p: bytes)
    requires |p| > 1 && p[0] == SLASH && p[|p| - 1] != SLASH && NoEmptyPiece(p, SLASH)
    ensures Path(Pieces(p, SLASH)) == p
    decreases |p|
  {
    hide Pieces, Path;
    var k := Cut(p[1..], SLASH);
    var a, rest := p[1..][..k], p[1..][k..];
    assert p == [SLASH] + a + rest;
    assert k > 0 by { assert p[1] != SLASH; }
    PiecesOfPath(a, rest);
    PathCons(a, Pieces(rest, SLASH));
    if rest == [] {
      NoPieces(SLASH);
      assert Path([]) == [] by { NoPath(); }
    } else {
      assert rest[|rest| - 1] == p[|p| - 1];
      assert NoEmptyPiece(rest, SLASH) by {
        assert forall i :: 0 <= i < |rest| ==> rest[i] == p[i + k + 1];
      }
      CleanPathRebuilt(rest);
    }
  }

  lemma NoPath()
    ensures Path([]) == []
  {}

  /** The path comes back exactly when it has no empty segment to lose. */
  lemma PathRoundTrip(p: bytes)
    ensures ComposedPath(Pieces(p, SLASH)) == p <==> CleanPath(p)
  {
    PiecesArePieces(p, SLASH);
    var ps := Pieces(p, SLASH);
    if ps != [] {
      PathIsClean(ps);
    }
    if CleanPath(p) && p != [SLASH] {
      CleanPathRebuilt(p);
    }
    if p == [SLASH] {
      assert p[1..] == [] && Pieces(p, SLASH) == [];
    }
  }

  /** Splitting undoes joining. */
  lemma {:induction false} PathPieces(ps: seq<bytes>)
    requires ArePieces(ps, SLASH)
    ensures Pieces(Path(ps), SLASH) == ps
  {
    hide Pieces;
    if ps == [] {
      NoPieces(SLASH);
    } else {
      assert ArePieces(ps[1..], SLASH);
      PathPieces(ps[1..]);
      PiecesOfPath(ps[0], Path(ps[1..]));
    }
  }

  /** Empty segments are all that is lost: what is rebuilt splits into the same pieces. */
  lemma PathKeepsPieces(p: bytes)
    ensures Pieces(ComposedPath(Pieces(p, SLASH)), SLASH) == Pieces(p, SLASH)
  {
    PiecesArePieces(p, SLASH);
    PathPieces(Pieces(p, SLASH));
    if Path(Pieces(p, SLASH)) == [] {
      assert [SLASH][1..] == [] && Pieces([SLASH], SLASH) == [];
    }
  }

  lemma {:induction false} QueryIsClean(ps: seq<bytes>)
    requires ArePieces(ps, AMPERSAND) && ps != []
    ensures var q := Query(ps);
            q != [] && q[0] != AMPERSAND && q[|q| - 1] != AMPERSAND && NoEmptyPiece(q, AMPERSAND)
  {
    var a := ps[0];
    assert a[0] in a && a[|a| - 1] in a;
    assert NoEmptyPiece(a, AMPERSAND) by {
      assert forall i :: 0 <= i < |a| ==> a[i] in a;
    }
    if |ps| > 1 {
      assert ArePieces(ps[1..], AMPERSAND);
      QueryIsClean(ps[1..]);
    }
  }

  lemma {:induction false} CleanQueryRebuilt(q: bytes)
    requires q != [] && CleanQuery(q)
    ensures Pieces(q, AMPERSAND) != [] && Query(Pieces(q, AMPERSAND)) == q
    decreases |q|
  {
    hide Pieces, Cut;
    UnfoldPieces(q, AMPERSAND);
    var k := Cut(q, AMPERSAND);
    assert k > 0;
    if k == |q| {
      NoPieces(AMPERSAND);
      assert q[..k] == q && Pieces(q, AMPERSAND) == [q];
    } else {
      var rest := q[k + 1..];
      assert rest[|rest| - 1] == q[|q| - 1];
      assert forall i :: 0 <= i < |rest| ==> rest[i] == q[i + k + 1];
      CleanQueryRebuilt(rest);
      var ps := Pieces(rest, AMPERSAND);
      assert ([q[..k]] + ps)[1..] == ps;
      assert q == q[..k] + [AMPERSAND] + rest;
    }
  }

  lemma QueryRoundTrip(q: bytes)
    ensures Query(Pieces(q, AMPERSAND)) == q <==> CleanQuery(q)
  {
    PiecesArePieces(q, AMPERSAND);
    if Pieces(q, AMPERSAND) != [] {
      QueryIsClean(Pieces(q, AMPERSAND));
    }
    if q != [] && CleanQuery(q) {
      CleanQueryRebuilt(q);
    }
  }

  // ------------------------------------------------------- through the options

  function PieceOpts(sym: Sym, ps: seq<bytes>): (os: seq<Opt>)
    ensures |os| == |ps|
    ensures forall i :: 0 <= i < |os| ==> os[i] == MakeOpt(sym, ps[i])
  {
    if ps == [] then [] else PieceOpts(sym, ps[..|ps| - 1]) + [MakeOpt(sym, ps[|ps| - 1])]
  }

  predicate ShortPieces(ps: seq<bytes>) {
    forall i :: 0 <= i < |ps| ==> |ps[i]| <= OPT_LEN_MAX
  }

  /** A value as a C string: up to the first NUL. */
  function CString(v: bytes): bytes {
    v[..Cut(v, 0)]
  }

  function Strings(os: seq<Opt>): (ps: seq<bytes>)
    ensures |ps| == |os|
    ensures forall i :: 0 <= i < |os| ==> ps[i] == CString(os[i].val)
  {
    if os == [] then [] else Strings(os[..|os| - 1]) + [CString(os[|os| - 1].val)]
  }

  /** What compose_uri makes of an option list. */
  function PathOf(os: seq<Opt>): bytes {
    ComposedPath(Strings(Select(os, URI_PATH)))
  }

  function QueryOf(os: seq<Opt>): bytes {
    Joined(Strings(Select(os, URI_QUERY)))
  }

  /** The list and count left by adding pieces one by one, unless a piece is too long or
      the slots run out. */
  function Pushed(os: seq<Opt>, n: nat, sym: Sym, ps: seq<bytes>): Option<(seq<Opt>, nat)>
    decreases |ps|
  {
    if ps == [] then Some((os, n))
    else if |ps[0]| > OPT_LEN_MAX || n >= MAX_OPTIONS then None
    else Pushed(InsertAll(os, [MakeOpt(sym, ps[0])]), n + 1, sym, ps[1..])
  }

  lemma PushedCons(os: seq<Opt>, n: nat, sym: Sym, p: bytes, ps: seq<bytes>)
    ensures Pushed(os, n, sym, [p] + ps)
            == if |p| > OPT_LEN_MAX || n >= MAX_OPTIONS then None
               else Pushed(InsertAll(os, [MakeOpt(sym, p)]), n + 1, sym, ps)
  {
    assert ([p] + ps)[1..] == ps;
  }

  /** Adding pieces one by one puts all of them in, in order, exactly when each fits an
      option and together they fit the free slots. */
  lemma {:induction false} PushedAll(start: seq<Opt>, n: nat, sym: Sym, done: seq<bytes>, ps: seq<bytes>)
    ensures Pushed(InsertAll(start, PieceOpts(sym, done)), n, sym, ps)
            == if ShortPieces(ps) && (ps == [] || n + |ps| <= MAX_OPTIONS)
               then Some((InsertAll(start, PieceOpts(sym, done + ps)), n + |ps|)) else None
    decreases |ps|
  {
    hide InsertAll, PieceOpts, MakeOpt;
    if ps == [] {
      assert done + ps == done;
    } else {
      var p, rest := ps[0], ps[1..];
      assert ShortPieces(ps) <==> |p| <= OPT_LEN_MAX && ShortPieces(rest) by {
        assert forall i :: 0 <= i < |rest| ==> rest[i] == ps[i + 1];
        assert forall i :: 0 < i < |ps| ==> ps[i] == rest[i - 1];
      }
      OneMore(start, sym, done, p);
      PushedAll(start, n + 1, sym, done + [p], rest);
      assert done + [p] + rest == done + ps;
    }
  }

  /** Adds every nonempty piece of a string as an option, in order. */
  method AddPieces(pool: Pool, sym: Sym, s: bytes, sep: byte) returns (ok: bool)
    requires pool.Valid()
    modifies pool
    ensures pool.Valid()
    ensures ok <==> |s| < BUFFER && ShortPieces(Pieces(s, sep))
                    && (Pieces(s, sep) == [] || old(pool.noptions) + |Pieces(s, sep)| <= MAX_OPTIONS)
    ensures ok ==> pool.bundle == InsertAll(old(pool.bundle), PieceOpts(sym, Pieces(s, sep)))
                   && pool.noptions == old(pool.noptions) + |Pieces(s, sep)|
  {
    hide InsertAll, PieceOpts, Pieces, Cut, Pushed, ShortPieces;
    if |s| >= BUFFER {
      return false;
    }
    var rest := s;
    NothingYet(pool.bundle, sym);
    PushedAll(pool.bundle, pool.noptions, sym, [], Pieces(s, sep));
    assert [] + Pieces(s, sep) == Pieces(s, sep);
    while rest != []
      invariant pool.Valid()
      invariant Pushed(pool.bundle, pool.noptions, sym, Pieces(rest, sep))
             == Pushed(old(pool.bundle), old(pool.noptions), sym, Pieces(s, sep))
      decreases |rest|
    {
      var r;
      r, rest := NextPiece(rest, sep);
      if r != [] {
        PushedCons(pool.bundle, pool.noptions, sym, r, Pieces(rest, sep));
        var added := AddPiece(pool, sym, r);
        if !added {
          return false;
        }
      }
    }
    NoPieces(sep);
    PushedNone(pool.bundle, pool.noptions, sym);
    return true;
  }

  lemma PushedNone(os: seq<Opt>, n: nat, sym: Sym)
    ensures Pushed(os, n, sym, []) == Some((os, n))
  {}

  lemma TakeFirst(s: bytes, sep: byte)
    requires s != []
    ensures var k := Cut(s, sep);
            var r, rest := s[..k], if k == |s| then [] else s[k + 1..];
            |rest| < |s| && Pieces(s, sep) == (if r == [] then Pieces(rest, sep) else [r] + Pieces(rest, sep))
  {
    UnfoldPieces(s, sep);
    hide Pieces, Cut;
    var k := Cut(s, sep);
    assert [] + Pieces(if k == |s| then [] else s[k + 1..], sep)
           == Pieces(if k == |s| then [] else s[k + 1..], sep);
  }

  /** strsep: takes off the piece before the next separator. */
  method NextPiece(s: bytes, sep: byte) returns (r: bytes, rest: bytes)
    requires s != []
    ensures |rest| < |s|
    ensures r == [] ==> Pieces(s, sep) == Pieces(rest, sep)
    ensures r != [] ==> Pieces(s, sep) == [r] + Pieces(rest, sep)
  {
    TakeFirst(s, sep);
    hide Pieces, Cut;
    var k := Cut(s, sep);
    r := s[..k];
    rest := if k == |s| then [] else s[k + 1..];
  }

  /** ec_opts_add_uri_path and ec_opts_add_uri_query */
  method AddPiece(pool: Pool, sym: Sym, r: bytes) returns (ok: bool)
    requires pool.Valid() && r != []
    modifies pool
    ensures pool.Valid()
    ensures ok <==> |r| <= OPT_LEN_MAX && old(pool.noptions) < MAX_OPTIONS
    ensures ok ==> pool.bundle == InsertAll(old(pool.bundle), [MakeOpt(sym, r)])
                   && pool.noptions == old(pool.noptions) + 1
  {
    if |r| > OPT_LEN_MAX {
      return false;
    }
    OneSlot(sym, r);
    ok := pool.AddRaw(sym, r);
  }

  lemma NothingYet(os: seq<Opt>, sym: Sym)
    ensures InsertAll(os, PieceOpts(sym, [])) == os
  {}

  lemma OneSlot(sym: Sym, v: bytes)
    requires 0 < |v| <= OPT_LEN_MAX
    ensures Slots(|v|) == 1 && Fragments(sym, v, 1) == [MakeOpt(sym, v)]
  {
    assert Fragments(sym, v, 0) == [];
    assert v[0..|v|] == v;
  }

  lemma OneMore(os: seq<Opt>, sym: Sym, ps: seq<bytes>, p: bytes)
    ensures InsertAll(InsertAll(os, PieceOpts(sym, ps)), [MakeOpt(sym, p)])
            == InsertAll(os, PieceOpts(sym, ps + [p]))
  {
    assert (ps + [p])[..|ps|] == ps;
    var f := PieceOpts(sym, ps + [p]);
    assert f[..|ps|] == PieceOpts(sym, ps);
    assert [MakeOpt(sym, p)][..0] == [];
  }

  lemma {:induction false} CutAll(v: bytes, sep: byte)
    requires sep !in v
    ensures Cut(v, sep) == |v|
  {
    if v != [] {
      CutAll(v[1..], sep);
    }
  }

  lemma NoZero(v: bytes)
    requires 0 !in v
    ensures CString(v) == v
  {
    hide Cut;
    CutAll(v, 0);
  }

  /** A value is read up to its first NUL, what follows it being lost. */
  lemma {:induction false} NulEnds(a: bytes, rest: bytes)
    requires 0 !in a
    ensures CString(a + [0] + rest) == a
  {
    var v := a + [0] + rest;
    if a == [] {
      assert v[0] == 0 && v[..0] == [];
    } else {
      NulEnds(a[1..], rest);
      assert v[1..] == a[1..] + [0] + rest;
      assert CString(v) == [v[0]] + CString(v[1..]);
    }
  }

  lemma StringsOfPieces(sym: Sym, ps: seq<bytes>)
    requires TypeOf(sym) != Empty && forall i :: 0 <= i < |ps| ==> 0 !in ps[i]
    ensures Strings(PieceOpts(sym, ps)) == ps
  {
    hide CString, TypeOf;
    forall i | 0 <= i < |ps| ensures CString(ps[i]) == ps[i] {
      NoZero(ps[i]);
    }
    hide Strings, PieceOpts;
  }

  lemma {:induction false} PiecesFromString(s: bytes, sep: byte)
    requires 0 !in s
    ensures forall i :: 0 <= i < |Pieces(s, sep)| ==> 0 !in Pieces(s, sep)[i]
  {
    if s != [] {
      UnfoldPieces(s, sep);
      hide Pieces, Cut;
      var k := Cut(s, sep);
      assert 0 !in s[..k];
      if k < |s| {
        assert 0 !in s[k + 1..];
        PiecesFromString(s[k + 1..], sep);
      } else {
        NoPieces(sep);
      }
    }
  }

  /** The pieces of a string, pushed before or after options of other symbols, are read
      back in order. */
  lemma PiecesReadBack(os: seq<Opt>, sym: Sym, s: bytes, sep: byte, others: seq<Opt>, other: Sym)
    requires Select(os, sym) == [] && TypeOf(sym) != Empty && 0 !in s && other != sym
    requires forall i :: 0 <= i < |others| ==> others[i].sym == other
    ensures var mine := PieceOpts(sym, Pieces(s, sep));
            Strings(Select(InsertAll(InsertAll(os, mine), others), sym)) == Pieces(s, sep)
            && Strings(Select(InsertAll(InsertAll(os, others), mine), sym)) == Pieces(s, sep)
  {
    hide InsertAll, Select, Pieces, Strings, PieceOpts, TypeOf;
    var mine := PieceOpts(sym, Pieces(s, sep));
    PiecesFromString(s, sep);
    StringsOfPieces(sym, Pieces(s, sep));
    InsertAllStable(os, mine, sym);
    InsertAllStable(InsertAll(os, mine), others, sym);
    InsertAllStable(os, others, sym);
    InsertAllStable(InsertAll(os, others), mine, sym);
    SelectAll(mine, sym, sym);
    SelectAll(others, other, sym);
    assert [] + mine == mine && mine + [] == mine;
  }

  /** The option list left by adding a path and then a query. */
  function WithUri(os: seq<Opt>, path: bytes, query: bytes): seq<Opt> {
    InsertAll(InsertAll(os, PieceOpts(URI_PATH, Pieces(path, SLASH))),
              PieceOpts(URI_QUERY, Pieces(query, AMPERSAND)))
  }

  /** Pushed among any other options, a path is recomposed to the input without its empty
      segments, and to the exact input if and only if it has none. */
  lemma PathThroughOptions(os: seq<Opt>, path: bytes, query: bytes)
    requires Select(os, URI_PATH) == [] && 0 !in path
    ensures Pieces(PathOf(WithUri(os, path, query)), SLASH) == Pieces(path, SLASH)
    ensures PathOf(WithUri(os, path, query)) == path <==> CleanPath(path)
  {
    hide InsertAll, Select, Pieces, Strings, CleanPath, ComposedPath;
    var qs := PieceOpts(URI_QUERY, Pieces(query, AMPERSAND));
    PiecesReadBack(os, URI_PATH, path, SLASH, qs, URI_QUERY);
    PathRoundTrip(path);
    PathKeepsPieces(path);
  }

  /** Likewise for a query. */
  lemma QueryThroughOptions(os: seq<Opt>, path: bytes, query: bytes)
    requires Select(os, URI_QUERY) == [] && 0 !in query
    ensures QueryOf(WithUri(os, path, query)) == query <==> CleanQuery(query)
    ensures QueryOf(WithUri(os, path, query)) == Query(Pieces(query, AMPERSAND))
  {
    hide InsertAll, Select, Pieces, Strings, CleanQuery, Query, Joined;
    var ps := PieceOpts(URI_PATH, Pieces(path, SLASH));
    PiecesReadBack(os, URI_QUERY, query, AMPERSAND, ps, URI_PATH);
    PiecesArePieces(query, AMPERSAND);
    JoinedIsQuery(Pieces(query, AMPERSAND));
    QueryRoundTrip(query);
  }

  lemma {:induction false} PathAppend(ps: seq<bytes>, p: bytes)
    ensures Path(ps + [p]) == Path(ps) + [SLASH] + p
  {
    if ps == [] {
      assert [p][1..] == [] && Path([p]) == [SLASH] + p + [];
    } else {
      assert (ps + [p])[1..] == ps[1..] + [p];
      PathAppend(ps[1..], p);
    }
  }

  /** The pieces of a path or query, `free` slots being left for them: none is too long for
      an option and they are not too many. */
  predicate PiecesFit(s: bytes, sep: byte, free: int) {
    |s| < BUFFER && ShortPieces(Pieces(s, sep)) && (Pieces(s, sep) == [] || |Pieces(s, sep)| <= free)
  }

  /** Decomposes a parsed URI into options, path first; it succeeds exactly if the pieces of
      the path, and then those of the query, fit. */
  method AddUri(pool: Pool, path: bytes, query: bytes) returns (ok: bool)
    requires pool.Valid()
    modifies pool
    ensures pool.Valid()
    ensures var free := MAX_OPTIONS - old(pool.noptions);
            ok <==> PiecesFit(path, SLASH, free)
                    && PiecesFit(query, AMPERSAND, free - |Pieces(path, SLASH)|)
    ensures ok ==> pool.bundle == WithUri(old(pool.bundle), path, query)
                   && pool.noptions
                      == old(pool.noptions) + |Pieces(path, SLASH)| + |Pieces(query, AMPERSAND)|
  {
    hide InsertAll, PieceOpts, Pieces, ShortPieces;
    ok := AddPieces(pool, URI_PATH, path, SLASH);
    if ok {
      ok := AddPieces(pool, URI_QUERY, query, AMPERSAND);
    }
  }

  lemma NextStrings(os: seq<Opt>, o: Opt, sym: Sym)
    ensures Strings(Select(os + [o], sym))
            == Strings(Select(os, sym)) + (if o.sym == sym then [CString(o.val)] else [])
  {
    hide Cut;
    assert (os + [o])[..|os|] == os;
    var s := Select(os, sym);
    assert (s + [o])[..|s|] == s;
  }

  lemma NextPath(os: seq<Opt>, o: Opt)
    ensures Path(Strings(Select(os + [o], URI_PATH)))
            == Path(Strings(Select(os, URI_PATH))) + (if o.sym == URI_PATH then [SLASH] + CString(o.val) else [])
  {
    hide Strings, Select, Path, CString;
    NextStrings(os, o, URI_PATH);
    var ps := Strings(Select(os, URI_PATH));
    PathAppend(ps, CString(o.val));
    assert ps + [] == ps && Path(ps) + [] == Path(ps);
  }

  lemma NextQuery(os: seq<Opt>, o: Opt)
    ensures var q := Joined(Strings(Select(os, URI_QUERY)));
            Joined(Strings(Select(os + [o], URI_QUERY)))
            == if o.sym != URI_QUERY then q
               else (if q == [] then [] else q + [AMPERSAND]) + CString(o.val)
  {
    hide Strings, Select, CString;
    NextStrings(os, o, URI_QUERY);
    var ps := Strings(Select(os, URI_QUERY));
    assert ps + [] == ps && (ps + [CString(o.val)])[..|ps|] == ps;
  }

  lemma NothingComposed(sym: Sym)
    ensures Path(Strings(Select([], sym))) == [] && Joined(Strings(Select([], sym))) == []
  {}

  /** Recomposes path and query in one pass over the list. */
  method Compose(os: seq<Opt>) returns (path: bytes, query: bytes)
    ensures path == PathOf(os) && query == QueryOf(os)
  {
    hide Strings, Select, Path, Joined, CString, Cut;
    path, query := [], [];
    var i := 0;
    NothingComposed(URI_PATH);
    NothingComposed(URI_QUERY);
    while i < |os|
      invariant 0 <= i <= |os|
      invariant path == Path(Strings(Select(os[..i], URI_PATH)))
      invariant query == Joined(Strings(Select(os[..i], URI_QUERY)))
    {
      var o := os[i];
      assert os[..i + 1] == os[..i] + [o];
      NextPath(os[..i], o);
      NextQuery(os[..i], o);
      if o.sym == URI_PATH {
        path := path + [SLASH] + CString(o.val);
      } else if o.sym == URI_QUERY {
        query := (if query == [] then [] else query + [AMPERSAND]) + CString(o.val);
      }
      i := i + 1;
    }
    assert os[..i] == os;
    if path == [] {
      path := [SLASH];
    }
  }
}
