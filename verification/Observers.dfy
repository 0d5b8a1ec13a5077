/** The registry of observed resources and their observers. */
module Observers {
  import opened OptionTable

  const URI_MAX: nat := 512
  const DEFAULT_MAX_AGE: nat := 60

  datatype Observer = Observer(peer: string, token: bytes, lastMid: uint16)

  datatype Observation = Observation(uri: string, maxAge: nat, observers: seq<Observer>)

  type Entries = seq<Observation>

  function Lower(c: char): char {
    if 'A' <= c <= 'Z' then c - 'A' + 'a' else c
  }

  /** URIs are compared without regard to ASCII case. */
  function Fold(s: string): (r: string)
    ensures |r| == |s|
  {
    if s == "" then "" else [Lower(s[0])] + Fold(s[1..])
  }

  lemma LowerIff(a: char, b: char)
    ensures Lower(a) == Lower(b)
            <==> a == b || ('A' <= a <= 'Z' && b as int == a as int + 32)
                 || ('A' <= b <= 'Z' && a as int == b as int + 32)
  {}

  lemma {:induction false} FoldAt(s: string, k: nat)
    requires k < |s|
    ensures Fold(s)[k] == Lower(s[k])
  {
    if k > 0 {
      FoldAt(s[1..], k - 1);
    }
  }

  /** That is, without regard to whether a letter from A to Z is a capital. */
  lemma FoldIff(s: string, t: string)
    ensures Fold(s) == Fold(t)
            <==> |s| == |t| && forall k :: 0 <= k < |s| ==>
                                 s[k] == t[k] || ('A' <= s[k] <= 'Z' && t[k] as int == s[k] as int + 32)
                                 || ('A' <= t[k] <= 'Z' && s[k] as int == t[k] as int + 32)
  {
    hide Fold, Lower;
    if |s| == |t| {
      forall k | 0 <= k < |s|
        ensures Fold(s)[k] == Fold(t)[k]
                <==> s[k] == t[k] || ('A' <= s[k] <= 'Z' && t[k] as int == s[k] as int + 32)
                     || ('A' <= t[k] <= 'Z' && s[k] as int == t[k] as int + 32)
      {
        FoldAt(s, k);
        FoldAt(t, k);
        LowerIff(s[k], t[k]);
      }
    }
  }

  /** Index of the observation of a URI, or the number of observations. */
  function FindUri(rs: Entries, uri: string): (i: nat)
    ensures i <= |rs| && (i < |rs| ==> Fold(rs[i].uri) == Fold(uri))
    ensures forall k :: 0 <= k < i ==> Fold(rs[k].uri) != Fold(uri)
  {
    if rs == [] || Fold(rs[0].uri) == Fold(uri) then 0 else 1 + FindUri(rs[1..], uri)
  }

  /** Is this an observer at the peer?  An ID other than 0 must be that of the last
      notification sent to it. */
  predicate Hits(o: Observer, peer: string, mid: uint16) {
    o.peer == peer && (mid == 0 || o.lastMid == mid)
  }

  function FindObserver(os: seq<Observer>, peer: string, mid: uint16): (j: nat)
    ensures j <= |os| && (j < |os| ==> Hits(os[j], peer, mid))
    ensures forall k :: 0 <= k < j ==> !Hits(os[k], peer, mid)
  {
    if os == [] || Hits(os[0], peer, mid) then 0 else 1 + FindObserver(os[1..], peer, mid)
  }

  /** Index of the first observation with such an observer. */
  function FindHit(rs: Entries, peer: string, mid: uint16): (i: nat)
    ensures i <= |rs| && (i < |rs| ==> FindObserver(rs[i].observers, peer, mid) < |rs[i].observers|)
    ensures forall k :: 0 <= k < i ==> FindObserver(rs[k].observers, peer, mid) == |rs[k].observers|
  {
    if rs == [] || FindObserver(rs[0].observers, peer, mid) < |rs[0].observers| then 0
    else 1 + FindHit(rs[1..], peer, mid)
  }

  function Without<T>(s: seq<T>, k: nat): seq<T>
    requires k < |s|
  {
    s[..k] + s[k + 1..]
  }

  /** An observation goes with its last observer. */
  function Remove(rs: Entries, i: nat, j: nat): Entries
    requires i < |rs| && j < |rs[i].observers|
  {
    var left := Without(rs[i].observers, j);
    if left == [] then Without(rs, i) else rs[i := rs[i].(observers := left)]
  }

  // ------------------------------------------------------------- the operations

  predicate CanAdd(rs: Entries, uri: string) {
    FindUri(rs, uri) < |rs| || |uri| < URI_MAX
  }

  function Add(rs: Entries, uri: string, peer: string, token: bytes, maxAge: nat): Entries {
    var i, o := FindUri(rs, uri), Observer(peer, token, 0);
    if i < |rs| then rs[i := rs[i].(observers := rs[i].observers + [o])]
    else if |uri| < URI_MAX then
      rs + [Observation(uri, if maxAge == 0 then DEFAULT_MAX_AGE else maxAge, [o])]
    else rs
  }

  /** Removes the first observer of the URI at the peer, if there is one. */
  function Leave(rs: Entries, uri: string, peer: string): Entries {
    var i := FindUri(rs, uri);
    if i == |rs| then rs
    else
      var j := FindObserver(rs[i].observers, peer, 0);
      if j == |rs[i].observers| then rs else Remove(rs, i, j)
  }

  /** An RST removes the first observer it hits, whatever it observes. */
  function Reset(rs: Entries, peer: string, mid: uint16): Entries {
    var i := FindHit(rs, peer, mid);
    if i == |rs| then rs else Remove(rs, i, FindObserver(rs[i].observers, peer, mid))
  }

  /** A round of notifications: every observer is sent one, with an ID of its own. */
  function Sent(os: seq<Observer>, mids: seq<uint16>): (r: seq<Observer>)
    requires |mids| == |os|
    ensures |r| == |os| && forall j :: 0 <= j < |os| ==> r[j] == os[j].(lastMid := mids[j])
  {
    if os == [] then [] else [os[0].(lastMid := mids[0])] + Sent(os[1..], mids[1..])
  }

  function Notify(rs: Entries, i: nat, mids: seq<uint16>): Entries
    requires i < |rs| && |mids| == |rs[i].observers|
  {
    rs[i := rs[i].(observers := Sent(rs[i].observers, mids))]
  }

  // --------------------------------------------------- the registry as a map

  /** Who observes a URI: what the registry stands for. */
  function Watchers(rs: Entries, uri: string): seq<Observer> {
    var i := FindUri(rs, uri);
    if i < |rs| then rs[i].observers else []
  }

  /** Each URI is listed once, up to case, and only while somebody observes it. */
  predicate Proper(rs: Entries) {
    (forall i, j :: 0 <= i < j < |rs| ==> Fold(rs[i].uri) != Fold(rs[j].uri))
    && forall i :: 0 <= i < |rs| ==> rs[i].observers != []
  }

  /** Nobody observes a resource twice. */
  predicate NoRepeats(os: seq<Observer>) {
    forall i, j :: 0 <= i < j < |os| ==> os[i].peer != os[j].peer
  }

  ghost predicate Single(rs: Entries) {
    forall uri :: NoRepeats(Watchers(rs, uri))
  }

  predicate Observes(rs: Entries, uri: string, peer: string) {
    exists k :: 0 <= k < |Watchers(rs, uri)| && Watchers(rs, uri)[k].peer == peer
  }

  /** An index is the one found when its URI is the one sought and none before it is. */
  lemma FoundAt(rs: Entries, uri: string, i: nat)
    requires i <= |rs| && (i < |rs| ==> Fold(rs[i].uri) == Fold(uri))
    requires forall k :: 0 <= k < i ==> Fold(rs[k].uri) != Fold(uri)
    ensures FindUri(rs, uri) == i
  {}

  lemma SameUris(rs: Entries, rs': Entries, uri: string)
    requires |rs'| == |rs| && forall k :: 0 <= k < |rs| ==> rs'[k].uri == rs[k].uri
    ensures FindUri(rs', uri) == FindUri(rs, uri)
  {
    hide Fold;
    FoundAt(rs', uri, FindUri(rs, uri));
  }

  /** Changing the observers of one entry. */
  lemma UpdateOne(rs: Entries, i: nat, os: seq<Observer>, other: string)
    requires Proper(rs) && i < |rs| && os != []
    ensures var rs' := rs[i := rs[i].(observers := os)];
            Proper(rs')
            && Watchers(rs', other) == if Fold(other) == Fold(rs[i].uri) then os else Watchers(rs, other)
  {
    hide Fold;
    var rs' := rs[i := rs[i].(observers := os)];
    assert forall k :: 0 <= k < |rs| ==> rs'[k].uri == rs[k].uri;
    SameUris(rs, rs', other);
    if Fold(other) == Fold(rs[i].uri) {
      FoundAt(rs, other, i);
    }
  }

  lemma AppendOne(rs: Entries, o: Observation, other: string)
    requires Proper(rs) && FindUri(rs, o.uri) == |rs| && o.observers != []
    ensures Proper(rs + [o])
    ensures Watchers(rs + [o], other) == if Fold(other) == Fold(o.uri) then o.observers else Watchers(rs, other)
  {
    hide Fold;
    var rs', k := rs + [o], FindUri(rs, other);
    assert forall n :: 0 <= n < |rs| ==> rs'[n] == rs[n];
    if k < |rs| || Fold(other) == Fold(o.uri) {
      FoundAt(rs', other, k);
    } else {
      FoundAt(rs', other, |rs'|);
    }
  }

  lemma WithoutAt(rs: Entries, i: nat)
    requires i < |rs|
    ensures |Without(rs, i)| == |rs| - 1
    ensures forall n :: 0 <= n < |rs| - 1 ==> Without(rs, i)[n] == rs[if n < i then n else n + 1]
  {}

  lemma DropProper(rs: Entries, i: nat)
    requires Proper(rs) && i < |rs|
    ensures Proper(Without(rs, i))
  {
    hide Fold, Without;
    WithoutAt(rs, i);
  }

  /** Where a URI is found once another entry is gone. */
  lemma FoundWithout(rs: Entries, i: nat, other: string)
    requires Proper(rs) && i < |rs|
    ensures var k := FindUri(rs, other);
            FindUri(Without(rs, i), other) == if k < i then k else if k == i then |rs| - 1 else k - 1
  {
    var rs', k := Without(rs, i), FindUri(rs, other);
    WithoutAt(rs, i);
    var k' := if k < i then k else if k == i then |rs| - 1 else k - 1;
    assert k < |rs| ==> forall n :: k < n < |rs| ==> Fold(rs[n].uri) != Fold(rs[k].uri);
    hide Fold, Without, Proper;
    forall n | 0 <= n < k' ensures Fold(rs'[n].uri) != Fold(other) {
      assert rs'[n] == rs[if n < i then n else n + 1];
    }
    FoundAt(rs', other, k');
  }

  lemma DropOne(rs: Entries, i: nat, other: string)
    requires Proper(rs) && i < |rs|
    ensures Proper(Without(rs, i))
    ensures Watchers(Without(rs, i), other) == if Fold(other) == Fold(rs[i].uri) then [] else Watchers(rs, other)
  {
    DropProper(rs, i);
    WithoutAt(rs, i);
    FoundWithout(rs, i, other);
    FoundFirst(rs, i);
    if Fold(other) == Fold(rs[i].uri) {
      FoundAt(rs, other, i);
    }
    hide Fold, Without, Proper, FindUri;
  }

  lemma RemoveOne(rs: Entries, i: nat, j: nat, other: string)
    requires Proper(rs) && i < |rs| && j < |rs[i].observers|
    ensures Proper(Remove(rs, i, j))
    ensures Watchers(Remove(rs, i, j), other)
            == if Fold(other) == Fold(rs[i].uri) then Without(rs[i].observers, j) else Watchers(rs, other)
  {
    hide Fold, Proper, Watchers;
    if Without(rs[i].observers, j) == [] {
      DropOne(rs, i, other);
    } else {
      UpdateOne(rs, i, Without(rs[i].observers, j), other);
    }
  }

  // -------------------------------------------------- what the operations do

  /** Registration adds one observer, with no notification yet, at the end of those of its
      URI, and touches no other resource. */
  lemma AddAppends(rs: Entries, uri: string, peer: string, token: bytes, maxAge: nat, other: string)
    requires Proper(rs)
    ensures var rs' := Add(rs, uri, peer, token, maxAge);
            Proper(rs')
            && Watchers(rs', other) == Watchers(rs, other)
               + (if CanAdd(rs, uri) && Fold(other) == Fold(uri) then [Observer(peer, token, 0)] else [])
  {
    hide Fold, Proper;
    var i, o := FindUri(rs, uri), Observer(peer, token, 0);
    if Fold(other) == Fold(uri) {
      FoundAt(rs, other, i);
    }
    if i < |rs| {
      UpdateOne(rs, i, rs[i].observers + [o], other);
    } else if |uri| < URI_MAX {
      AppendOne(rs, Observation(uri, if maxAge == 0 then DEFAULT_MAX_AGE else maxAge, [o]), other);
    }
  }

  /** The lifetime of an observation. */
  function Lifetime(rs: Entries, uri: string): Option<nat> {
    var i := FindUri(rs, uri);
    if i < |rs| then Some(rs[i].maxAge) else None
  }

  /** A new observation gets the Max-Age given, or 60 seconds for none; one that exists keeps
      what it has. */
  lemma AddLifetime(rs: Entries, uri: string, peer: string, token: bytes, maxAge: nat)
    requires CanAdd(rs, uri)
    ensures Lifetime(Add(rs, uri, peer, token, maxAge), uri)
            == if Lifetime(rs, uri).Some? then Lifetime(rs, uri) else Some(if maxAge == 0 then 60 else maxAge)
  {
    hide Fold;
    FoundAt(Add(rs, uri, peer, token, maxAge), uri, FindUri(rs, uri));
  }

  lemma LeaveAt(rs: Entries, uri: string, peer: string, other: string)
    requires Proper(rs)
    ensures var rs', os := Leave(rs, uri, peer), Watchers(rs, uri);
            var j := FindObserver(os, peer, 0);
            Proper(rs')
            && Watchers(rs', other) == if j < |os| && Fold(other) == Fold(uri) then Without(os, j) else Watchers(rs, other)
  {
    hide Fold, Proper;
    var i := FindUri(rs, uri);
    if Fold(other) == Fold(uri) {
      FoundAt(rs, other, i);
    }
    if i < |rs| {
      var j := FindObserver(rs[i].observers, peer, 0);
      if j < |rs[i].observers| {
        RemoveOne(rs, i, j, other);
      }
    }
  }

  lemma ResetAt(rs: Entries, peer: string, mid: uint16, other: string)
    requires Proper(rs)
    ensures var rs', i := Reset(rs, peer, mid), FindHit(rs, peer, mid);
            Proper(rs')
            && if i == |rs| then rs' == rs && forall o :: o in Watchers(rs, other) ==> !Hits(o, peer, mid)
               else
                 var os := rs[i].observers;
                 var j := FindObserver(os, peer, mid);
                 j < |os| && Hits(os[j], peer, mid) && Watchers(rs, rs[i].uri) == os
                 && Watchers(rs', other) == if Fold(other) == Fold(rs[i].uri) then Without(os, j) else Watchers(rs, other)
  {
    hide Fold, Proper;
    var i := FindHit(rs, peer, mid);
    if i < |rs| {
      RemoveOne(rs, i, FindObserver(rs[i].observers, peer, mid), other);
      FoundFirst(rs, i);
    }
  }

  /** The first observer at the peer, and only that one, leaves a resource. */
  lemma LeaveRemoves(rs: Entries, uri: string, peer: string) returns (j: nat)
    requires Proper(rs)
    ensures var rs', os := Leave(rs, uri, peer), Watchers(rs, uri);
            j <= |os| && (j < |os| ==> os[j].peer == peer) && (forall k :: 0 <= k < j ==> os[k].peer != peer)
            && (j == |os| ==> rs' == rs)
            && forall other ::
                 Watchers(rs', other)
                 == if j < |os| && Fold(other) == Fold(uri) then os[..j] + os[j + 1..] else Watchers(rs, other)
  {
    j := FindObserver(Watchers(rs, uri), peer, 0);
    forall k | 0 <= k < j ensures Watchers(rs, uri)[k].peer != peer {
      assert !Hits(Watchers(rs, uri)[k], peer, 0);
    }
    forall other
      ensures Watchers(Leave(rs, uri, peer), other)
              == if j < |Watchers(rs, uri)| && Fold(other) == Fold(uri)
                 then Watchers(rs, uri)[..j] + Watchers(rs, uri)[j + 1..] else Watchers(rs, other)
    {
      LeaveAt(rs, uri, peer, other);
    }
  }

  /** An RST removes one observer of one resource: at the peer it comes from, and last notified
      with its ID unless that is 0.  It is the first such one, and only if there is none does
      nothing change. */
  lemma ResetRemovesOne(rs: Entries, peer: string, mid: uint16) returns (i: nat, j: nat)
    requires Proper(rs)
    ensures i <= |rs|
    ensures forall k, n :: 0 <= k < i && 0 <= n < |rs[k].observers| ==>
              var o := rs[k].observers[n]; o.peer != peer || (mid != 0 && o.lastMid != mid)
    ensures i == |rs| ==> Reset(rs, peer, mid) == rs
    ensures i < |rs| ==>
              var os := rs[i].observers;
              os == Watchers(rs, rs[i].uri) && j < |os| && os[j].peer == peer && (mid != 0 ==> os[j].lastMid == mid)
              && (forall n :: 0 <= n < j ==> os[n].peer != peer || (mid != 0 && os[n].lastMid != mid))
              && forall other ::
                   Watchers(Reset(rs, peer, mid), other)
                   == if Fold(other) == Fold(rs[i].uri) then os[..j] + os[j + 1..] else Watchers(rs, other)
  {
    hide Fold, Proper, Watchers, Reset, FindHit, FindObserver;
    i := FindHit(rs, peer, mid);
    j := if i < |rs| then FindObserver(rs[i].observers, peer, mid) else 0;
    forall k, n | 0 <= k < i && 0 <= n < |rs[k].observers|
      ensures var o := rs[k].observers[n]; o.peer != peer || (mid != 0 && o.lastMid != mid)
    {
      assert !Hits(rs[k].observers[n], peer, mid);
    }
    ResetAt(rs, peer, mid, "");
    if i < |rs| {
      FoundWatchers(rs, i);
      forall n | 0 <= n < j
        ensures var o := rs[i].observers[n]; o.peer != peer || (mid != 0 && o.lastMid != mid)
      {
        assert !Hits(rs[i].observers[n], peer, mid);
      }
      forall other
        ensures Watchers(Reset(rs, peer, mid), other)
                == if Fold(other) == Fold(rs[i].uri) then rs[i].observers[..j] + rs[i].observers[j + 1..]
                   else Watchers(rs, other)
      {
        ResetAt(rs, peer, mid, other);
      }
    }
  }

  /** In terms of who observes: whoever has another peer, or another last ID while the RST has
      one, stays; and an RST that changes nothing matched nobody anywhere. */
  lemma ResetSpares(rs: Entries, peer: string, mid: uint16, uri: string)
    requires Proper(rs)
    ensures var rs' := Reset(rs, peer, mid);
            (forall o :: o in Watchers(rs, uri) && (o.peer != peer || (mid != 0 && o.lastMid != mid))
                         ==> o in Watchers(rs', uri))
            && (rs' == rs ==> forall o :: o in Watchers(rs, uri) ==> o.peer != peer || (mid != 0 && o.lastMid != mid))
  {
    hide Proper, Reset;
    var i, j := ResetRemovesOne(rs, peer, mid);
    if i < |rs| {
      var os, ws := rs[i].observers, Watchers(rs, uri);
      assert Watchers(rs, rs[i].uri) == os;
      assert Watchers(Reset(rs, peer, mid), rs[i].uri) == os[..j] + os[j + 1..];
      SameWatchers(rs, rs[i].uri, uri);
      forall o | o in ws && (o.peer != peer || (mid != 0 && o.lastMid != mid))
        ensures o in Watchers(Reset(rs, peer, mid), uri)
      {
        if Fold(uri) == Fold(rs[i].uri) {
          var k :| 0 <= k < |os| && os[k] == o;
          assert o in os[..j] + os[j + 1..];
        }
      }
    }
  }

  lemma FoundFirst(rs: Entries, i: nat)
    requires Proper(rs) && i < |rs|
    ensures FindUri(rs, rs[i].uri) == i
  {
    FoundAt(rs, rs[i].uri, i);
  }

  lemma NotifyMarks(rs: Entries, i: nat, mids: seq<uint16>, other: string)
    requires Proper(rs) && i < |rs| && |mids| == |rs[i].observers|
    ensures Proper(Notify(rs, i, mids))
    ensures Watchers(Notify(rs, i, mids), other)
            == if Fold(other) == Fold(rs[i].uri) then Sent(rs[i].observers, mids) else Watchers(rs, other)
    ensures forall j :: 0 <= j < |mids| ==>
              Sent(rs[i].observers, mids)[j] == Observer(rs[i].observers[j].peer, rs[i].observers[j].token, mids[j])
  {
    UpdateOne(rs, i, Sent(rs[i].observers, mids), other);
  }

  // ----------------------------------------------------- nobody observes twice

  lemma WithoutKeepsPeers(os: seq<Observer>, j: nat)
    requires j < |os| && NoRepeats(os)
    ensures NoRepeats(Without(os, j))
    ensures forall k :: 0 <= k < |os| - 1 ==> Without(os, j)[k].peer != os[j].peer
  {
    assert forall k :: 0 <= k < |os| - 1 ==> Without(os, j)[k] == os[if k < j then k else k + 1];
  }

  /** Registering keeps observers single exactly if this one does not observe already. */
  lemma AddKeepsSingleIff(rs: Entries, uri: string, peer: string, token: bytes, maxAge: nat)
    requires Proper(rs) && Single(rs)
    ensures Single(Add(rs, uri, peer, token, maxAge)) <==> !(CanAdd(rs, uri) && Observes(rs, uri, peer))
  {
    hide Fold, Add, Watchers, Proper;
    var rs', os := Add(rs, uri, peer, token, maxAge), Watchers(rs, uri);
    AddAppends(rs, uri, peer, token, maxAge, uri);
    if CanAdd(rs, uri) && Observes(rs, uri, peer) {
      var k :| 0 <= k < |os| && os[k].peer == peer;
      assert Watchers(rs', uri)[k].peer == Watchers(rs', uri)[|os|].peer;
    } else {
      forall other ensures NoRepeats(Watchers(rs', other)) {
        AddAppends(rs, uri, peer, token, maxAge, other);
        SameWatchers(rs, uri, other);
      }
    }
  }

  lemma SameWatchers(rs: Entries, uri: string, other: string)
    ensures Fold(other) == Fold(uri) ==> Watchers(rs, other) == Watchers(rs, uri)
  {
    if Fold(other) == Fold(uri) {
      FoundAt(rs, other, FindUri(rs, uri));
    }
  }

  /** After a GET, before its callback runs, its sender no longer observes the resource. */
  lemma LeaveClears(rs: Entries, uri: string, peer: string)
    requires Proper(rs) && Single(rs)
    ensures Single(Leave(rs, uri, peer)) && !Observes(Leave(rs, uri, peer), uri, peer)
  {
    hide Fold, Leave, Watchers, Proper;
    var rs', os := Leave(rs, uri, peer), Watchers(rs, uri);
    var j := FindObserver(os, peer, 0);
    LeaveAt(rs, uri, peer, uri);
    forall other ensures NoRepeats(Watchers(rs', other)) {
      LeaveAt(rs, uri, peer, other);
      if j < |os| {
        WithoutKeepsPeers(os, j);
      }
    }
    if j < |os| {
      WithoutKeepsPeers(os, j);
    } else {
      assert forall k :: 0 <= k < |os| ==> !Hits(os[k], peer, 0);
    }
  }

  lemma ResetKeepsSingle(rs: Entries, peer: string, mid: uint16)
    requires Proper(rs) && Single(rs)
    ensures Single(Reset(rs, peer, mid))
  {
    hide Fold, Watchers, Proper, Reset;
    forall other ensures NoRepeats(Watchers(Reset(rs, peer, mid), other)) {
      ResetAt(rs, peer, mid, other);
      var i := FindHit(rs, peer, mid);
      if i < |rs| {
        assert NoRepeats(Watchers(rs, rs[i].uri));
        WithoutKeepsPeers(rs[i].observers, FindObserver(rs[i].observers, peer, mid));
      }
    }
  }

  lemma NotifyKeepsSingle(rs: Entries, i: nat, mids: seq<uint16>)
    requires Proper(rs) && Single(rs) && i < |rs| && |mids| == |rs[i].observers|
    ensures Single(Notify(rs, i, mids))
  {
    hide Fold, Watchers, Proper, Notify;
    forall other ensures NoRepeats(Watchers(Notify(rs, i, mids), other)) {
      NotifyMarks(rs, i, mids, other);
      FoundWatchers(rs, i);
      assert NoRepeats(Watchers(rs, rs[i].uri));
    }
  }

  lemma FoundWatchers(rs: Entries, i: nat)
    requires Proper(rs) && i < |rs|
    ensures Watchers(rs, rs[i].uri) == rs[i].observers
  {
    FoundFirst(rs, i);
  }

  // ---------------------------------------------------------------------- runs

  /** A GET first ends an observation by its sender; its callback may then register it, for
      a Max-Age.  Registration may also happen at another time. */
  datatype Event =
    | Get(uri: string, peer: string, token: bytes, registers: Option<nat>)
    | AddLater(uri: string, peer: string, token: bytes, maxAge: nat)
    | Withdraw(uri: string, peer: string)
    | Rst(peer: string, mid: uint16)
    | Round(uri: string, mids: seq<uint16>)

  function Apply(rs: Entries, e: Event): Entries {
    match e
    case Get(uri, peer, token, registers) =>
      var left := Leave(rs, uri, peer);
      if registers.Some? then Add(left, uri, peer, token, registers.value) else left
    case AddLater(uri, peer, token, maxAge) => Add(rs, uri, peer, token, maxAge)
    case Withdraw(uri, peer) => Leave(rs, uri, peer)
    case Rst(peer, mid) => Reset(rs, peer, mid)
    case Round(uri, mids) =>
      var i := FindUri(rs, uri);
      if i < |rs| && |mids| == |rs[i].observers| then Notify(rs, i, mids) else rs
  }

  function After(es: seq<Event>): Entries {
    if es == [] then [] else Apply(After(es[..|es| - 1]), es[|es| - 1])
  }

  lemma ApplyProper(rs: Entries, e: Event)
    requires Proper(rs)
    ensures Proper(Apply(rs, e))
  {
    hide Fold, Proper, Add, Leave, Reset, Notify;
    match e
    case Get(uri, peer, token, registers) =>
      LeaveAt(rs, uri, peer, uri);
      if registers.Some? {
        AddAppends(Leave(rs, uri, peer), uri, peer, token, registers.value, uri);
      }
    case AddLater(uri, peer, token, maxAge) => AddAppends(rs, uri, peer, token, maxAge, uri);
    case Withdraw(uri, peer) => LeaveAt(rs, uri, peer, uri);
    case Rst(peer, mid) => ResetAt(rs, peer, mid, "");
    case Round(uri, mids) =>
      var i := FindUri(rs, uri);
      if i < |rs| && |mids| == |rs[i].observers| {
        NotifyMarks(rs, i, mids, uri);
      }
  }

  /** In every run, every URI is listed once, up to case, and only while it is observed. */
  lemma {:induction false} AlwaysProper(es: seq<Event>)
    ensures Proper(After(es))
  {
    hide Apply;
    if es != [] {
      AlwaysProper(es[..|es| - 1]);
      ApplyProper(After(es[..|es| - 1]), es[|es| - 1]);
    }
  }

  /** A registration outside the GET's own callback, of somebody who observes already. */
  predicate Doubles(rs: Entries, e: Event) {
    e.AddLater? && CanAdd(rs, e.uri) && Observes(rs, e.uri, e.peer)
  }

  lemma ApplySingleIff(rs: Entries, e: Event)
    requires Proper(rs) && Single(rs)
    ensures Single(Apply(rs, e)) <==> !Doubles(rs, e)
  {
    hide Fold, Proper, Single, Observes, CanAdd, Add, Leave, Reset, Notify;
    match e
    case Get(uri, peer, token, registers) =>
      LeaveClears(rs, uri, peer);
      LeaveAt(rs, uri, peer, uri);
      if registers.Some? {
        AddKeepsSingleIff(Leave(rs, uri, peer), uri, peer, token, registers.value);
      }
    case AddLater(uri, peer, token, maxAge) => AddKeepsSingleIff(rs, uri, peer, token, maxAge);
    case Withdraw(uri, peer) => LeaveClears(rs, uri, peer);
    case Rst(peer, mid) => ResetKeepsSingle(rs, peer, mid);
    case Round(uri, mids) =>
      var i := FindUri(rs, uri);
      if i < |rs| && |mids| == |rs[i].observers| {
        NotifyKeepsSingle(rs, i, mids);
      }
  }

  ghost predicate SingleThroughout(es: seq<Event>) {
    Single(After(es)) && (es != [] ==> SingleThroughout(es[..|es| - 1]))
  }

  predicate NeverDoubles(es: seq<Event>) {
    es != [] ==> NeverDoubles(es[..|es| - 1]) && !Doubles(After(es[..|es| - 1]), es[|es| - 1])
  }

  /** A run keeps observers single throughout exactly if nobody who observes already is
      registered outside the callback of a GET. */
  lemma {:induction false} SingleThroughoutIff(es: seq<Event>)
    ensures SingleThroughout(es) <==> NeverDoubles(es)
  {
    hide Single, Doubles, Apply, Proper;
    if es == [] {
      NobodyYet();
    } else {
      var prefix := es[..|es| - 1];
      SingleThroughoutIff(prefix);
      AlwaysProper(prefix);
      if Single(After(prefix)) {
        ApplySingleIff(After(prefix), es[|es| - 1]);
      }
    }
  }

  lemma NobodyYet()
    ensures Single(After([]))
  {}

  lemma NobodyHit(rs: Entries, peer: string, mid: uint16)
    requires FindHit(rs, peer, mid) == |rs|
    ensures forall k, n :: 0 <= k < |rs| && 0 <= n < |rs[k].observers| ==>
              var o := rs[k].observers[n]; o.peer != peer || (mid != 0 && o.lastMid != mid)
  {
    forall k, n | 0 <= k < |rs| && 0 <= n < |rs[k].observers|
      ensures var o := rs[k].observers[n]; o.peer != peer || (mid != 0 && o.lastMid != mid)
    {
      assert !Hits(rs[k].observers[n], peer, mid);
    }
  }

  // ---------------------------------------------------------- the registry itself

  class Registry {
    var observing: Entries

    constructor ()
      ensures observing == []
    {
      observing := [];
    }

    method SearchObservation(uri: string) returns (i: nat)
      ensures i == FindUri(observing, uri)
    {
      i := 0;
      while i < |observing|
        invariant i <= |observing| && i + FindUri(observing[i..], uri) == FindUri(observing, uri)
      {
        assert observing[i..][1..] == observing[i + 1..];
        if Fold(observing[i].uri) == Fold(uri) {
          return;
        }
        i := i + 1;
      }
    }

    method SearchObserver(os: seq<Observer>, peer: string, mid: uint16) returns (j: nat)
      ensures j == FindObserver(os, peer, mid)
    {
      j := 0;
      while j < |os|
        invariant j <= |os| && j + FindObserver(os[j..], peer, mid) == FindObserver(os, peer, mid)
      {
        assert os[j..][1..] == os[j + 1..];
        if os[j].peer == peer {
          if mid != 0 && os[j].lastMid != mid {
            j := j + 1;
            continue;
          }
          return;
        }
        j := j + 1;
      }
    }

    method RemoveObserver(i: nat, j: nat)
      requires i < |observing| && j < |observing[i].observers|
      modifies this
      ensures observing == Remove(old(observing), i, j)
    {
      var os := observing[i].observers;
      observing := observing[i := observing[i].(observers := os[..j] + os[j + 1..])];
      if observing[i].observers == [] {
        observing := observing[..i] + observing[i + 1..];
      }
    }

    method AddObserver(uri: string, peer: string, token: bytes, maxAge: nat) returns (ok: bool)
      modifies this
      ensures ok <==> CanAdd(old(observing), uri)
      ensures observing == Add(old(observing), uri, peer, token, maxAge)
    {
      var i := SearchObservation(uri);
      ghost var o := Observer(peer, token, 0);
      if i == |observing| {
        if |uri| >= URI_MAX {
          return false;
        }
        observing := observing + [Observation(uri, if maxAge == 0 then DEFAULT_MAX_AGE else maxAge, [])];
      }
      assert [] + [o] == [o];
      observing := observing[i := observing[i].(observers := observing[i].observers + [Observer(peer, token, 0)])];
      assert observing == Add(old(observing), uri, peer, token, maxAge);
      return true;
    }

    /** Also what a GET does first; `found` says whether the resource was observed at all. */
    method LeaveObservation(uri: string, peer: string) returns (found: bool)
      modifies this
      ensures found <==> FindUri(old(observing), uri) < |old(observing)|
      ensures observing == Leave(old(observing), uri, peer)
    {
      var i := SearchObservation(uri);
      if i == |observing| {
        return false;
      }
      var j := SearchObserver(observing[i].observers, peer, 0);
      if j < |observing[i].observers| {
        RemoveObserver(i, j);
      }
      return true;
    }

    method CanceledByRst(peer: string, mid: uint16) returns (removed: bool)
      modifies this
      ensures removed <==> FindHit(old(observing), peer, mid) < |old(observing)|
      ensures !removed ==> forall k, n :: 0 <= k < |observing| && 0 <= n < |observing[k].observers| ==>
                             var o := observing[k].observers[n]; o.peer != peer || (mid != 0 && o.lastMid != mid)
      ensures observing == Reset(old(observing), peer, mid)
    {
      var i := 0;
      while i < |observing|
        invariant i <= |observing| && observing == old(observing)
        invariant i + FindHit(observing[i..], peer, mid) == FindHit(observing, peer, mid)
      {
        assert observing[i..][1..] == observing[i + 1..];
        var j := SearchObserver(observing[i].observers, peer, mid);
        if j < |observing[i].observers| {
          RemoveObserver(i, j);
          return true;
        }
        i := i + 1;
      }
      NobodyHit(observing, peer, mid);
      return false;
    }

    /** The notification timer of a resource whose representation exists. */
    method NotifyAll(i: nat, mids: seq<uint16>)
      requires i < |observing| && |mids| == |observing[i].observers|
      modifies this
      ensures observing == Notify(old(observing), i, mids)
    {
      var os := observing[i].observers;
      var j := 0;
      while j < |os|
        invariant j <= |os| && |observing| == |old(observing)|
        invariant observing == old(observing)[i := old(observing)[i].(observers := observing[i].observers)]
        invariant |observing[i].observers| == |os|
        invariant forall k :: 0 <= k < j ==> observing[i].observers[k] == os[k].(lastMid := mids[k])
        invariant forall k :: j <= k < |os| ==> observing[i].observers[k] == os[k]
      {
        observing := observing[i := observing[i].(observers := observing[i].observers[j := os[j].(lastMid := mids[j])])];
        j := j + 1;
      }
      assert observing[i].observers == Sent(os, mids);
    }
  }
}
