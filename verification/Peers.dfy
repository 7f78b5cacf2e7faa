/** The peer list of a client. */
module Peers {
  import opened Ledger

  const NOT_AN_IP: string := "dummy"

  predicate Admissible(me: string, addr: string) {
    addr != me && addr != NOT_AN_IP
  }

  /** The invariants that `addNewPeer` promises. */
  ghost predicate PeersOk(me: string, peers: seq<string>) {
    && |peers| <= MAX_PEERS
    && (forall i, j :: 0 <= i < j < |peers| ==> peers[i] != peers[j])
    && (forall p :: p in peers ==> Admissible(me, p))
  }

  function AddPeer(me: string, peers: seq<string>, addr: string): seq<string> {
    if |peers| >= MAX_PEERS || !Admissible(me, addr) || addr in peers then peers
    else [addr] + peers
  }

  function AddAll(me: string, peers: seq<string>, addrs: seq<string>): seq<string>
    decreases |addrs|
  {
    if addrs == [] then peers else AddAll(me, AddPeer(me, peers, addrs[0]), addrs[1..])
  }

  /** Everything the given peers answer, in the order in which `push_front` leaves it. */
  function Offers(peers: seq<string>, answers: string -> seq<string>): seq<string> {
    if peers == [] then []
    else Offers(peers[1..], answers) + Reversed(answers(peers[0]))
  }

  function Reversed<T>(s: seq<T>): seq<T> {
    if s == [] then [] else Reversed(s[1..]) + [s[0]]
  }

  function Bootstrapped(me: string, first: string, peers: seq<string>, answers: string -> seq<string>): seq<string> {
    var start := AddPeer(me, peers, first);
    AddAll(me, start, Offers(start, answers))
  }

  class Client {
    const me: string
    const first: string
    var peers: seq<string>

    constructor (me: string, first: string)
      ensures this.me == me && this.first == first && peers == []
    {
      this.me := me;
      this.first := first;
      peers := [];
    }

    method AddNewPeer(addr: string)
      modifies this
      ensures peers == AddPeer(me, old(peers), addr)
    {
      if |peers| >= MAX_PEERS || addr == me || addr == NOT_AN_IP {
        return;
      }
      for i := 0 to |peers|
        invariant peers == old(peers) && addr !in peers[..i]
      {
        if peers[i] == addr {
          return;
        }
      }
      peers := [addr] + peers;
    }

    /** `bootstrapPeers`; `answers` are the peers' replies to `GetAddr`. */
    method BootstrapPeers(answers: string -> seq<string>) returns (count: nat)
      modifies this
      ensures peers == Bootstrapped(me, first, old(peers), answers)
      ensures count == |peers|
    {
      AddNewPeer(first);
      ghost var start := peers;
      var newPeers := Collect(peers, answers);
      var i := 0;
      while i < |newPeers|
        invariant i <= |newPeers|
        invariant AddAll(me, peers, newPeers[i..]) == AddAll(me, start, newPeers)
      {
        if |peers| >= MAX_PEERS {
          FullStaysFull(me, peers, newPeers[i..]);
          break;
        }
        AddNewPeer(newPeers[i]);
        assert newPeers[i..][1..] == newPeers[i + 1..];
        i := i + 1;
      }
      count := |peers|;
    }

    /** The server's `GetAddr`: answer with the list, then add the caller. */
    method GetAddr(caller: string) returns (reply: seq<string>)
      modifies this
      ensures reply == Reversed(old(peers))
      ensures peers == AddPeer(me, old(peers), caller)
    {
      reply := [];
      for i := 0 to |peers|
        invariant peers == old(peers)
        invariant Reversed(peers[i..]) + reply == Reversed(peers)
      {
        assert peers[i..][1..] == peers[i + 1..];
        reply := [peers[i]] + reply;
      }
      AddNewPeer(caller);
    }
  }

  /** The two nested loops that ask every peer. */
  method Collect(peers: seq<string>, answers: string -> seq<string>) returns (offers: seq<string>)
    ensures offers == Offers(peers, answers)
  {
    offers := [];
    for i := 0 to |peers|
      invariant Offers(peers[i..], answers) + offers == Offers(peers, answers)
    {
      var response := answers(peers[i]);
      ghost var before := offers;
      for j := 0 to |response|
        invariant Reversed(response[j..]) + offers == Reversed(response) + before
      {
        assert response[j..][1..] == response[j + 1..];
        offers := [response[j]] + offers;
      }
      assert peers[i..][1..] == peers[i + 1..];
      assert Offers(peers[i + 1..], answers) + (Reversed(response) + before) == Offers(peers[i..], answers) + before;
    }
  }

  lemma {:induction false} FullStaysFull(me: string, peers: seq<string>, addrs: seq<string>)
    requires |peers| >= MAX_PEERS
    ensures AddAll(me, peers, addrs) == peers
    decreases |addrs|
  {
    if addrs != [] {
      FullStaysFull(me, peers, addrs[1..]);
    }
  }

  lemma {:induction false} ReversedElements<T>(s: seq<T>, x: T)
    ensures x in Reversed(s) <==> x in s
  {
    if s != [] {
      ReversedElements(s[1..], x);
      assert s == [s[0]] + s[1..];
    }
  }

  lemma {:induction false} ReversedAt<T>(s: seq<T>, i: nat)
    requires i < |s|
    ensures |Reversed(s)| == |s| && Reversed(s)[i] == s[|s| - 1 - i]
  {
    if |s| == 1 {
      assert Reversed(s[1..]) == [];
    } else {
      ReversedAt(s[1..], if i < |s| - 1 then i else 0);
    }
  }

  lemma {:induction false} ReversedConcat<T>(a: seq<T>, b: seq<T>)
    ensures Reversed(a + b) == Reversed(b) + Reversed(a)
  {
    if a == [] {
      assert a + b == b;
    } else {
      assert (a + b)[1..] == a[1..] + b;
      ReversedConcat(a[1..], b);
    }
  }

  /** The answers as they come in: peer by peer, each in its own order. */
  function Heard(peers: seq<string>, answers: string -> seq<string>): seq<string> {
    if peers == [] then [] else answers(peers[0]) + Heard(peers[1..], answers)
  }

  /** The list that is worked off is what was heard, last heard first. */
  lemma {:induction false} LastHeardFirst(peers: seq<string>, answers: string -> seq<string>)
    ensures |Offers(peers, answers)| == |Heard(peers, answers)|
    ensures forall i :: 0 <= i < |Heard(peers, answers)| ==>
              Offers(peers, answers)[i] == Heard(peers, answers)[|Heard(peers, answers)| - 1 - i]
  {
    OffersReversed(peers, answers);
    var heard := Heard(peers, answers);
    if heard == [] {
      assert Reversed(heard) == [];
    } else {
      ReversedAt(heard, 0);
    }
    forall i | 0 <= i < |heard|
      ensures Offers(peers, answers)[i] == heard[|heard| - 1 - i]
    {
      ReversedAt(heard, i);
    }
  }

  lemma {:induction false} OffersReversed(peers: seq<string>, answers: string -> seq<string>)
    ensures Offers(peers, answers) == Reversed(Heard(peers, answers))
  {
    if peers != [] {
      OffersReversed(peers[1..], answers);
      ReversedConcat(answers(peers[0]), Heard(peers[1..], answers));
    }
  }

  /** An address is offered exactly when some current peer names it. */
  lemma {:induction false} OffersElements(peers: seq<string>, answers: string -> seq<string>, a: string)
    ensures a in Offers(peers, answers) <==> exists p :: p in peers && a in answers(p)
  {
    if peers != [] {
      OffersElements(peers[1..], answers, a);
      ReversedElements(answers(peers[0]), a);
      assert peers == [peers[0]] + peers[1..];
    }
  }

  /** None dropped: the old list stays, as the tail of the new one. */
  ghost predicate Extends(old': seq<string>, new': seq<string>) {
    |old'| <= |new'| && new'[|new'| - |old'|..] == old'
  }

  lemma ExtendsTransitive(a: seq<string>, b: seq<string>, c: seq<string>)
    requires Extends(a, b) && Extends(b, c)
    ensures Extends(a, c)
  {
    assert c[|c| - |a|..] == b[|b| - |a|..];
  }

  lemma ExtendsElements(a: seq<string>, b: seq<string>, x: string)
    requires Extends(a, b) && x in a
    ensures x in b
  {
    var i :| 0 <= i < |a| && a[i] == x;
    assert b[|b| - |a|..][i] == b[|b| - |a| + i];
  }

  lemma AddPeerKeeps(me: string, peers: seq<string>, addr: string)
    requires PeersOk(me, peers)
    ensures var p := AddPeer(me, peers, addr);
            PeersOk(me, p) && Extends(peers, p) && (|p| == MAX_PEERS || (Admissible(me, addr) ==> addr in p))
  {
  }

  lemma {:induction false} AddAllKeeps(me: string, peers: seq<string>, addrs: seq<string>)
    requires PeersOk(me, peers)
    ensures var p := AddAll(me, peers, addrs);
            && PeersOk(me, p) && Extends(peers, p)
            && (|p| == MAX_PEERS || forall a :: a in addrs && Admissible(me, a) ==> a in p)
    decreases |addrs|
  {
    if addrs != [] {
      var mid := AddPeer(me, peers, addrs[0]);
      var p := AddAll(me, mid, addrs[1..]);
      AddPeerKeeps(me, peers, addrs[0]);
      AddAllKeeps(me, mid, addrs[1..]);
      ExtendsTransitive(peers, mid, p);
      if |p| < MAX_PEERS {
        forall a | a in addrs && Admissible(me, a)
          ensures a in p
        {
          if a == addrs[0] {
            ExtendsElements(mid, p, a);
          } else {
            assert a in addrs[1..];
          }
        }
      }
    }
  }

  /** Nobody is invented, and earlier offers win: an admissible offer that finds no place finds the
      list already full of old peers and earlier offers. */
  lemma {:induction false} EarlierOffersWin(me: string, peers: seq<string>, addrs: seq<string>, i: nat)
    requires PeersOk(me, peers) && i < |addrs| && Admissible(me, addrs[i])
    ensures var p := AddAll(me, peers, addrs);
            addrs[i] in p || (|p| == MAX_PEERS && forall x :: x in p ==> x in peers || x in addrs[..i])
    decreases |addrs|
  {
    var mid := AddPeer(me, peers, addrs[0]);
    var p := AddAll(me, mid, addrs[1..]);
    AddPeerKeeps(me, peers, addrs[0]);
    if i > 0 {
      EarlierOffersWin(me, mid, addrs[1..], i - 1);
      assert addrs[..i] == [addrs[0]] + addrs[1..][..i - 1];
    } else if addrs[0] in mid {
      AddAllKeeps(me, mid, addrs[1..]);
      ExtendsElements(mid, p, addrs[0]);
    } else {
      FullStaysFull(me, peers, addrs[1..]);
    }
  }

  lemma {:induction false} OnlyOffersAdded(me: string, peers: seq<string>, addrs: seq<string>)
    ensures forall x :: x in AddAll(me, peers, addrs) ==> x in peers || x in addrs
    decreases |addrs|
  {
    if addrs != [] {
      OnlyOffersAdded(me, AddPeer(me, peers, addrs[0]), addrs[1..]);
      assert addrs == [addrs[0]] + addrs[1..];
    }
  }

  /** A bootstrap ends with a full list, or with every admissible address that was on offer. */
  lemma BootstrapFills(me: string, first: string, peers: seq<string>, answers: string -> seq<string>)
    requires PeersOk(me, peers)
    ensures var start := AddPeer(me, peers, first);
            var p := Bootstrapped(me, first, peers, answers);
            && PeersOk(me, p) && Extends(peers, p)
            && (|p| == MAX_PEERS ||
                ((Admissible(me, first) ==> first in p) &&
                 forall q, a :: q in start && a in answers(q) && Admissible(me, a) ==> a in p))
            && (forall x :: x in p ==> x in peers || x == first || exists q :: q in start && x in answers(q))
  {
    var start := AddPeer(me, peers, first);
    var p := Bootstrapped(me, first, peers, answers);
    AddPeerKeeps(me, peers, first);
    AddAllKeeps(me, start, Offers(start, answers));
    ExtendsTransitive(peers, start, p);
    if first in start {
      ExtendsElements(start, p, first);
    }
    OnlyOffersAdded(me, start, Offers(start, answers));
    forall x | x in p
      ensures x in peers || x == first || exists q :: q in start && x in answers(q)
    {
      OffersElements(start, answers, x);
    }
    forall q, a | q in start && a in answers(q) && Admissible(me, a)
      ensures |p| == MAX_PEERS || a in p
    {
      OffersElements(start, answers, a);
    }
  }

  // ----- runs -----

  datatype Call = Bootstrap(answers: string -> seq<string>) | Incoming(caller: string)

  function AfterCalls(me: string, first: string, peers: seq<string>, calls: seq<Call>): seq<string>
    decreases |calls|
  {
    if calls == [] then peers
    else
      var next := match calls[0]
        case Bootstrap(answers) => Bootstrapped(me, first, peers, answers)
        case Incoming(caller) => AddPeer(me, peers, caller);
      AfterCalls(me, first, next, calls[1..])
  }

  /** Over any run of bootstraps and incoming requests: at most ten peers, all distinct, none
      the client itself or the dummy address, and no peer is ever dropped. */
  lemma {:induction false} PeersOverRuns(me: string, first: string, peers: seq<string>, calls: seq<Call>)
    requires PeersOk(me, peers)
    ensures var p := AfterCalls(me, first, peers, calls);
            PeersOk(me, p) && Extends(peers, p)
    decreases |calls|
  {
    if calls != [] {
      var next := match calls[0]
        case Bootstrap(answers) => Bootstrapped(me, first, peers, answers)
        case Incoming(caller) => AddPeer(me, peers, caller);
      match calls[0] {
        case Bootstrap(answers) => BootstrapFills(me, first, peers, answers);
        case Incoming(caller) => AddPeerKeeps(me, peers, caller);
      }
      PeersOverRuns(me, first, next, calls[1..]);
      ExtendsTransitive(peers, next, AfterCalls(me, first, next, calls[1..]));
    }
  }
}
