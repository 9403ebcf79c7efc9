/** The relay rule of `commonspace/pubsub/service.go`: what a peer sends on when it receives a
    publish frame, as a transition system over the frames in flight. */
module Relay {
  import opened Sequences

  type Peer = nat

  /** `relayed` is the flag a node sets when it forwards to another node. */
  datatype Frame = Frame(from: Peer, to: Peer, relayed: bool)

  /** The nodes responsible for the space, the other nodes, the clients, and for each node the
      clients with a matching subscription on it. */
  datatype Net = Net(responsible: set<Peer>, others: set<Peer>, clients: set<Peer>, subs: map<Peer, set<Peer>>)

  predicate IsNode(net: Net, p: Peer) {
    p in net.responsible || p in net.others
  }

  function Subscribers(net: Net, n: Peer): set<Peer> {
    if n in net.subs then net.subs[n] else {}
  }

  ghost predicate WellFormed(net: Net) {
    forall n | n in net.subs :: forall c | c in net.subs[n] :: c in net.clients && !IsNode(net, c)
  }

  /** fanout writes the message as it came, at most once per subscribed stream. */
  ghost predicate Fans(net: Net, f: Frame, out: seq<Frame>) {
    Distinct(out) && forall g | g in out :: g.from == f.to && g.relayed == f.relayed && g.to in Subscribers(net, f.to)
  }

  /** The forward to the other responsible nodes carries the relayed flag. */
  ghost predicate Forwards(net: Net, f: Frame, out: seq<Frame>) {
    Distinct(out) && forall g | g in out :: g.from == f.to && g.relayed && g.to in net.responsible && g.to != f.to
  }

  /** handlePublish and relayPublish: the frames a receiver may send on.  A refused message, a full
      write queue or an unreachable peer sends less. */
  ghost predicate Reaction(net: Net, f: Frame, fan: seq<Frame>, forward: seq<Frame>) {
    if f.to !in net.responsible then fan == [] && forward == []
    else if f.relayed then forward == [] && if f.from in net.responsible then Fans(net, f, fan) else fan == []
    else Fans(net, f, fan) && Forwards(net, f, forward)
  }

  /** Frames on their way and every frame sent so far. */
  datatype State = State(inflight: seq<Frame>, sent: seq<Frame>)

  ghost predicate Delivers(net: Net, s: State, s': State, i: nat, fan: seq<Frame>, forward: seq<Frame>) {
    && i < |s.inflight| && Reaction(net, s.inflight[i], fan, forward)
    && s'.inflight == s.inflight[..i] + s.inflight[i + 1..] + fan + forward
    && s'.sent == s.sent + fan + forward
  }

  ghost predicate Step(net: Net, s: State, s': State) {
    exists i: nat, fan, forward :: Delivers(net, s, s', i, fan, forward)
  }

  /** The frames a client sends when it publishes: one to each peer SpacePeers names. */
  function Entering(client: Peer, peers: seq<Peer>): seq<Frame> {
    if peers == [] then [] else [Frame(client, peers[0], false)] + Entering(client, peers[1..])
  }

  /** A run after one client handed its message to the peers. */
  ghost predicate IsRun(net: Net, client: Peer, peers: seq<Peer>, states: seq<State>) {
    && states != [] && states[0] == State(Entering(client, peers), [])
    && forall k | 0 <= k < |states| - 1 :: Step(net, states[k], states[k + 1])
  }

  // ---- one hop ------------------------------------------------------------------------------------------

  /** How many frames went from a node to node m. */
  function Hops(net: Net, sent: seq<Frame>, m: Peer): nat {
    if sent == [] then 0
    else (if IsNode(net, sent[0].from) && IsNode(net, sent[0].to) && sent[0].to == m then 1 else 0) + Hops(net, sent[1..], m)
  }

  lemma {:induction false} HopsConcat(net: Net, a: seq<Frame>, b: seq<Frame>, m: Peer)
    ensures Hops(net, a + b, m) == Hops(net, a, m) + Hops(net, b, m)
    decreases |a|
  {
    if a == [] {
      assert a + b == b;
    } else {
      assert (a + b)[1..] == a[1..] + b;
      HopsConcat(net, a[1..], b, m);
    }
  }

  lemma {:induction false} FanHops(net: Net, f: Frame, fan: seq<Frame>, m: Peer)
    requires WellFormed(net) && Fans(net, f, fan)
    ensures Hops(net, fan, m) == 0
    decreases |fan|
  {
    if fan != [] {
      assert fan[0] in fan;
      assert forall g | g in fan[1..] :: g in fan;
      FanHops(net, f, fan[1..], m);
    }
  }

  lemma {:induction false} ForwardHops(net: Net, f: Frame, forward: seq<Frame>, m: Peer)
    requires Forwards(net, f, forward)
    ensures Hops(net, forward, m) <= (if m in net.responsible && m != f.to then 1 else 0)
    ensures Frame(f.to, m, true) !in forward ==> Hops(net, forward, m) == 0
    decreases |forward|
  {
    if forward != [] {
      assert forward[0] in forward;
      assert forall g | g in forward[1..] :: g in forward;
      ForwardHops(net, f, forward[1..], m);
      assert forward[0] !in forward[1..];
    }
  }

  /** Receiving the frame makes a node forward to m. */
  predicate Opens(net: Net, f: Frame, m: Peer) {
    !f.relayed && f.to in net.responsible && m in net.responsible && f.to != m
  }

  /** How many frames on their way open a hop to m. */
  function ToCome(net: Net, frames: seq<Frame>, m: Peer): nat {
    if frames == [] then 0 else (if Opens(net, frames[0], m) then 1 else 0) + ToCome(net, frames[1..], m)
  }

  lemma {:induction false} ToComeConcat(net: Net, a: seq<Frame>, b: seq<Frame>, m: Peer)
    ensures ToCome(net, a + b, m) == ToCome(net, a, m) + ToCome(net, b, m)
    decreases |a|
  {
    if a == [] {
      assert a + b == b;
    } else {
      assert (a + b)[1..] == a[1..] + b;
      ToComeConcat(net, a[1..], b, m);
    }
  }

  lemma {:induction false} NothingToCome(net: Net, frames: seq<Frame>, m: Peer)
    requires forall g | g in frames :: g.relayed || g.to !in net.responsible
    ensures ToCome(net, frames, m) == 0
    decreases |frames|
  {
    if frames != [] {
      assert frames[0] in frames;
      assert forall g | g in frames[1..] :: g in frames;
      NothingToCome(net, frames[1..], m);
    }
  }

  /** What is sent in reaction to a frame hops to m at most when the frame opens a hop, and opens none. */
  lemma ReactionHops(net: Net, f: Frame, fan: seq<Frame>, forward: seq<Frame>, m: Peer)
    requires WellFormed(net) && Reaction(net, f, fan, forward)
    ensures Hops(net, fan, m) + Hops(net, forward, m) <= if Opens(net, f, m) then 1 else 0
    ensures ToCome(net, fan, m) == 0 && ToCome(net, forward, m) == 0
  {
    if fan != [] {
      FanHops(net, f, fan, m);
    }
    if forward != [] {
      ForwardHops(net, f, forward, m);
    }
    NothingToCome(net, fan, m);
    NothingToCome(net, forward, m);
  }

  /** Hops taken and hops to come never grow. */
  lemma StepHops(net: Net, s: State, s': State, m: Peer)
    requires WellFormed(net) && Step(net, s, s')
    ensures Hops(net, s'.sent, m) + ToCome(net, s'.inflight, m) <= Hops(net, s.sent, m) + ToCome(net, s.inflight, m)
  {
    hide Reaction, Opens;
    var i: nat, fan, forward :| Delivers(net, s, s', i, fan, forward);
    var f, a, b := s.inflight[i], s.inflight[..i], s.inflight[i + 1..];
    assert s.inflight == a + ([f] + b);
    ToComeConcat(net, a, [f] + b, m);
    assert ([f] + b)[1..] == b;
    ToComeConcat(net, a, b, m);
    ToComeConcat(net, a + b, fan, m);
    ToComeConcat(net, a + b + fan, forward, m);
    HopsConcat(net, s.sent, fan, m);
    HopsConcat(net, s.sent + fan, forward, m);
    ReactionHops(net, f, fan, forward, m);
  }

  lemma {:induction false} RunHops(net: Net, client: Peer, peers: seq<Peer>, states: seq<State>, m: Peer, k: nat)
    requires WellFormed(net) && IsRun(net, client, peers, states) && k < |states|
    ensures Hops(net, states[k].sent, m) + ToCome(net, states[k].inflight, m) <= ToCome(net, Entering(client, peers), m)
    decreases k
  {
    if k > 0 {
      RunHops(net, client, peers, states, m, k - 1);
      assert Step(net, states[k - 1], states[k]);
      StepHops(net, states[k - 1], states[k], m);
    }
  }

  /** The responsible nodes a message enters at, other than m. */
  function EntryNodes(net: Net, peers: seq<Peer>, m: Peer): nat {
    if peers == [] then 0
    else (if peers[0] in net.responsible && peers[0] != m then 1 else 0) + EntryNodes(net, peers[1..], m)
  }

  lemma {:induction false} EntryOpens(net: Net, client: Peer, peers: seq<Peer>, m: Peer)
    ensures ToCome(net, Entering(client, peers), m) == if m in net.responsible then EntryNodes(net, peers, m) else 0
  {
    if peers != [] {
      var rest := Entering(client, peers[1..]);
      assert Entering(client, peers)[1..] == rest;
      EntryOpens(net, client, peers[1..], m);
    }
  }

  /** A client's message crosses to a responsible node at most once for each other responsible node it
      entered at, and never to a node that is not responsible. */
  lemma AtMostOneHop(net: Net, client: Peer, peers: seq<Peer>, states: seq<State>, m: Peer)
    requires WellFormed(net) && IsRun(net, client, peers, states)
    ensures Hops(net, states[|states| - 1].sent, m) <= if m in net.responsible then EntryNodes(net, peers, m) else 0
  {
    RunHops(net, client, peers, states, m, |states| - 1);
    EntryOpens(net, client, peers, m);
  }

  // ---- the frames drain ------------------------------------------------------------------------------------

  function Weight(net: Net, f: Frame): nat {
    var fanout := 1 + |net.clients|;
    if !IsNode(net, f.to) then 1 else if f.relayed then fanout else fanout + |net.responsible| * fanout
  }

  function Load(net: Net, frames: seq<Frame>): nat {
    if frames == [] then 0 else Weight(net, frames[0]) + Load(net, frames[1..])
  }

  lemma {:induction false} LoadConcat(net: Net, a: seq<Frame>, b: seq<Frame>)
    ensures Load(net, a + b) == Load(net, a) + Load(net, b)
    decreases |a|
  {
    if a == [] {
      assert a + b == b;
    } else {
      assert (a + b)[1..] == a[1..] + b;
      LoadConcat(net, a[1..], b);
    }
  }

  /** Distinct frames of equal weight to targets in a set weigh at most that often. */
  lemma {:induction false} LoadBound(net: Net, from: Peer, relayed: bool, frames: seq<Frame>, targets: set<Peer>, w: nat)
    requires Distinct(frames)
    requires forall g | g in frames :: g.from == from && g.relayed == relayed && g.to in targets && Weight(net, g) == w
    ensures Load(net, frames) <= |targets| * w
    decreases |frames|
  {
    if frames == [] {
      assert |targets| * w >= 0;
    } else {
      var g := frames[0];
      assert g in frames;
      var rest := targets - {g.to};
      forall h | h in frames[1..]
        ensures h.to in rest && h in frames
      {
        assert h in frames && h != g;
      }
      LoadBound(net, from, relayed, frames[1..], rest, w);
      assert |targets| == |rest| + 1;
      assert (|rest| + 1) * w == |rest| * w + w;
    }
  }

  /** What a receiver sends on weighs less than what it received. */
  lemma ReactionLighter(net: Net, f: Frame, fan: seq<Frame>, forward: seq<Frame>)
    requires WellFormed(net) && Reaction(net, f, fan, forward)
    ensures Load(net, fan) + Load(net, forward) < Weight(net, f)
  {
    if f.to in net.responsible {
      if fan != [] {
        LoadBound(net, f.to, f.relayed, fan, net.clients, 1);
      }
      if forward != [] {
        LoadBound(net, f.to, true, forward, net.responsible, 1 + |net.clients|);
      }
    }
  }

  lemma StepLighter(net: Net, s: State, s': State)
    requires WellFormed(net) && Step(net, s, s')
    ensures Load(net, s'.inflight) < Load(net, s.inflight)
  {
    hide Reaction, Weight;
    var i: nat, fan, forward :| Delivers(net, s, s', i, fan, forward);
    var f, a, b := s.inflight[i], s.inflight[..i], s.inflight[i + 1..];
    assert s.inflight == a + ([f] + b);
    LoadConcat(net, a, [f] + b);
    assert ([f] + b)[1..] == b;
    assert Load(net, [f] + b) == Weight(net, f) + Load(net, b);
    LoadConcat(net, a, b);
    LoadConcat(net, a + b, fan);
    LoadConcat(net, a + b + fan, forward);
    ReactionLighter(net, f, fan, forward);
  }

  lemma {:induction false} RunLighter(net: Net, client: Peer, peers: seq<Peer>, states: seq<State>, k: nat)
    requires WellFormed(net) && IsRun(net, client, peers, states) && k < |states|
    ensures Load(net, states[k].inflight) + k <= Load(net, states[0].inflight)
    decreases k
  {
    if k > 0 {
      RunLighter(net, client, peers, states, k - 1);
      assert Step(net, states[k - 1], states[k]);
      StepLighter(net, states[k - 1], states[k]);
    }
  }

  lemma {:induction false} EntryLoad(net: Net, client: Peer, peers: seq<Peer>)
    ensures Load(net, Entering(client, peers)) <= |peers| * ((1 + |net.clients|) * (1 + |net.responsible|))
  {
    if peers != [] {
      var f := Frame(client, peers[0], false);
      assert Entering(client, peers)[1..] == Entering(client, peers[1..]);
      EntryLoad(net, client, peers[1..]);
      var most := (1 + |net.clients|) * (1 + |net.responsible|);
      assert Weight(net, f) <= most;
      assert |peers| * most == (|peers| - 1) * most + most;
    }
  }

  /** Every run is over after at most (1 + clients) * (1 + responsible nodes) deliveries for each peer the
      message entered at. */
  lemma FramesDrain(net: Net, client: Peer, peers: seq<Peer>, states: seq<State>)
    requires WellFormed(net) && IsRun(net, client, peers, states)
    ensures |states| - 1 <= |peers| * ((1 + |net.clients|) * (1 + |net.responsible|))
  {
    RunLighter(net, client, peers, states, |states| - 1);
    EntryLoad(net, client, peers);
  }

  // ---- nobody is left out -----------------------------------------------------------------------------------

  /** A node takes the message in: one that a client sent, or one that a responsible node relayed. */
  predicate Accepts(net: Net, f: Frame) {
    f.to in net.responsible && (f.relayed ==> f.from in net.responsible)
  }

  /** Nothing is lost: every subscriber of the node is sent the message, and when it came from a client so is
      every other responsible node. */
  ghost predicate Complete(net: Net, f: Frame, fan: seq<Frame>, forward: seq<Frame>) {
    Accepts(net, f) ==>
      && (forall c | c in Subscribers(net, f.to) :: Frame(f.to, c, f.relayed) in fan)
      && (!f.relayed ==> forall m | m in net.responsible && m != f.to :: Frame(f.to, m, true) in forward)
  }

  ghost predicate LosslessStep(net: Net, s: State, s': State) {
    exists i: nat, fan, forward :: Delivers(net, s, s', i, fan, forward) && Complete(net, s.inflight[i], fan, forward)
  }

  ghost predicate IsLossless(net: Net, states: seq<State>) {
    forall k | 0 <= k < |states| - 1 :: LosslessStep(net, states[k], states[k + 1])
  }

  /** The members of a set in some order, as the targets of frames. */
  lemma {:induction false} FramesTo(from: Peer, relayed: bool, targets: set<Peer>) returns (out: seq<Frame>)
    ensures Distinct(out) && forall g :: g in out <==> g.from == from && g.relayed == relayed && g.to in targets
    decreases |targets|
  {
    out := [];
    if targets != {} {
      var t :| t in targets;
      var rest := FramesTo(from, relayed, targets - {t});
      out := rest + [Frame(from, t, relayed)];
    }
  }

  /** The relay rule lets every frame be handled without loss. */
  lemma CanBeComplete(net: Net, f: Frame) returns (fan: seq<Frame>, forward: seq<Frame>)
    ensures Reaction(net, f, fan, forward) && Complete(net, f, fan, forward)
  {
    fan, forward := [], [];
    if Accepts(net, f) {
      fan := FramesTo(f.to, f.relayed, Subscribers(net, f.to));
      if !f.relayed {
        forward := FramesTo(f.to, true, net.responsible - {f.to});
      }
    }
  }

  /** Every subscriber of m has been sent the message by m. */
  ghost predicate Served(net: Net, s: State, m: Peer) {
    forall c | c in Subscribers(net, m) :: Frame(m, c, false) in s.sent || Frame(m, c, true) in s.sent
  }

  /** A frame on its way that m accepts, or that a responsible node will forward to m. */
  predicate Promises(net: Net, f: Frame, m: Peer) {
    Accepts(net, f) && (f.to == m || !f.relayed)
  }

  ghost predicate Coming(net: Net, s: State, m: Peer) {
    exists f | f in s.inflight :: Promises(net, f, m)
  }

  lemma DeliveryKept(net: Net, s: State, s': State, m: Peer)
    requires LosslessStep(net, s, s') && m in net.responsible && (Served(net, s, m) || Coming(net, s, m))
    ensures Served(net, s', m) || Coming(net, s', m)
  {
    var i: nat, fan, forward :| Delivers(net, s, s', i, fan, forward) && Complete(net, s.inflight[i], fan, forward);
    var d := s.inflight[i];
    if !Served(net, s, m) {
      var f :| f in s.inflight && Promises(net, f, m);
      if f == d {
        if d.to != m {
          assert Frame(d.to, m, true) in s'.inflight && Promises(net, Frame(d.to, m, true), m);
        }
      } else {
        var j :| 0 <= j < |s.inflight| && s.inflight[j] == f;
        assert f in s.inflight[..i] || f in s.inflight[i + 1..];
        assert f in s'.inflight;
      }
    }
  }

  lemma {:induction false} DeliveryGoesOn(net: Net, client: Peer, peers: seq<Peer>, states: seq<State>, n: Peer, m: Peer, k: nat)
    requires IsRun(net, client, peers, states) && IsLossless(net, states) && k < |states|
    requires n in peers && n in net.responsible && m in net.responsible
    ensures Served(net, states[k], m) || Coming(net, states[k], m)
    decreases k
  {
    hide LosslessStep, Served;
    if k == 0 {
      EntryFrame(client, peers, n);
      assert Promises(net, Frame(client, n, false), m);
    } else {
      DeliveryGoesOn(net, client, peers, states, n, m, k - 1);
      assert LosslessStep(net, states[k - 1], states[k]);
      DeliveryKept(net, states[k - 1], states[k], m);
    }
  }

  lemma {:induction false} EntryFrame(client: Peer, peers: seq<Peer>, n: Peer)
    requires n in peers
    ensures Frame(client, n, false) in Entering(client, peers)
  {
    if peers[0] != n {
      EntryFrame(client, peers[1..], n);
    }
  }

  /** Without losses, once no frame is on its way every subscriber of every responsible node has been sent a
      message that entered at a responsible node. */
  lemma EverySubscriberServed(net: Net, client: Peer, peers: seq<Peer>, states: seq<State>, n: Peer, m: Peer, c: Peer)
    requires IsRun(net, client, peers, states) && IsLossless(net, states) && states[|states| - 1].inflight == []
    requires n in peers && n in net.responsible && m in net.responsible && c in Subscribers(net, m)
    ensures var sent := states[|states| - 1].sent; Frame(m, c, false) in sent || Frame(m, c, true) in sent
  {
    hide LosslessStep;
    DeliveryGoesOn(net, client, peers, states, n, m, |states| - 1);
  }

  /** Such a run exists from every state: frames can be handled without loss until none is left. */
  lemma {:induction false} RunsDry(net: Net, s: State) returns (states: seq<State>)
    requires WellFormed(net)
    ensures states != [] && states[0] == s && states[|states| - 1].inflight == [] && IsLossless(net, states)
    ensures forall k | 0 <= k < |states| - 1 :: Step(net, states[k], states[k + 1])
    decreases Load(net, s.inflight)
  {
    if s.inflight == [] {
      states := [s];
    } else {
      hide Reaction, Complete, Load;
      var fan, forward := CanBeComplete(net, s.inflight[0]);
      var s' := State(s.inflight[..0] + s.inflight[1..] + fan + forward, s.sent + fan + forward);
      assert Delivers(net, s, s', 0, fan, forward);
      assert Step(net, s, s') && LosslessStep(net, s, s');
      StepLighter(net, s, s');
      var rest := RunsDry(net, s');
      states := [s] + rest;
      forall k | 0 <= k < |states| - 1
        ensures Step(net, states[k], states[k + 1]) && LosslessStep(net, states[k], states[k + 1])
      {
        if k > 0 {
          assert states[k] == rest[k - 1] && states[k + 1] == rest[k];
        }
      }
    }
  }
}
