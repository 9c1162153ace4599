/**
 * What a host-port tunnel puts on the wire, and what becomes of its connections.
 * The engine names every accepted sub-stream by an id of its own other than 0,
 * which stands for the tunnel itself.
 */
module TunnelOutbound {
  import opened Wrappers
  import opened TunnelMultiplex

  ghost predicate Distinct(input: seq<Response>) {
    && (forall i :: 0 <= i < |input| && input[i].Accept? ==> input[i].id != 0)
    && (forall i, j :: 0 <= i < j < |input| && input[i].Accept? && input[j].Accept? ==> input[i].id != input[j].id)
  }

  // ----- Every accepted id has one owner -----

  ghost predicate HasConn(s: State, id: Id) {
    exists c :: 0 <= c < |s.all| && s.all[c].id == id
  }

  predicate InHands(s: State, id: Id) {
    (s.loop.Dialing? || s.loop.Refusing?) && s.loop.id == id
  }

  ghost predicate Accepted(s: State, id: Id) {
    exists i :: 0 <= i < s.position && i < |s.input| && s.input[i] == Accept(id)
  }

  ghost predicate Owners(s: State) {
    && (forall c, d :: 0 <= c < d < |s.all| ==> s.all[c].id != s.all[d].id)
    && (forall id :: HasConn(s, id) || id in s.refused ==> !InHands(s, id) && Accepted(s, id))
    && (forall id :: id in s.refused ==> !HasConn(s, id))
    && (forall id :: Accepted(s, id) ==> HasConn(s, id) || id in s.refused || InHands(s, id))
  }

  /** Steps that neither receive nor finish a dial leave the owners. */
  lemma SameOwners(s: State, t: State)
    requires Owners(s) && t.input == s.input && t.position == s.position && t.refused == s.refused
    requires |t.all| == |s.all| && forall c :: 0 <= c < |s.all| ==> t.all[c].id == s.all[c].id
    requires forall id :: InHands(t, id) <==> InHands(s, id)
    ensures Owners(t)
  {
    forall id ensures HasConn(t, id) <==> HasConn(s, id) {
      if HasConn(s, id) {
        var c :| 0 <= c < |s.all| && s.all[c].id == id;
        assert t.all[c].id == id;
      }
    }
    forall id ensures Accepted(t, id) <==> Accepted(s, id) {
    }
  }

  lemma ReceiveOwners(s: State)
    requires Distinct(s.input) && Registered(s) && Owners(s) && Enabled(s, Receive)
    ensures Owners(Apply(s, Receive))
  {
    var t := Apply(s, Receive);
    ReceiveChanges(s);
    forall id ensures Accepted(t, id) <==> Accepted(s, id) || s.input[s.position] == Accept(id) {
      if Accepted(s, id) {
        var i :| 0 <= i < s.position && s.input[i] == Accept(id);
        assert t.input[i] == Accept(id);
      }
    }
    forall id ensures HasConn(t, id) <==> HasConn(s, id) {
      if HasConn(s, id) {
        var c :| 0 <= c < |s.all| && s.all[c].id == id;
        assert t.all[c].id == id;
      }
    }
    forall id | Accepted(s, id) ensures !InHands(t, id) {
    }
  }

  lemma ReceiveChanges(s: State)
    requires Enabled(s, Receive)
    ensures var t := Apply(s, Receive);
            && t.input == s.input && t.position == s.position + 1 && t.refused == s.refused && t.wire == s.wire
            && t.sdkClosed == s.sdkClosed && |t.all| == |s.all|
            && (forall c :: 0 <= c < |s.all| ==> t.all[c].id == s.all[c].id && t.all[c].from == s.all[c].from)
            && (forall c :: 0 <= c < |s.all| ==> t.all[c].pump == s.all[c].pump && t.all[c].read == s.all[c].read)
            && (forall id :: InHands(t, id) <==> s.input[s.position] == Accept(id))
  {
  }

  lemma DialedOwners(s: State, ok: bool)
    requires Registered(s) && Owners(s) && Enabled(s, Dialed(ok))
    ensures Owners(Apply(s, Dialed(ok)))
  {
    var t := Apply(s, Dialed(ok));
    if ok {
      RegisterChanges(s, s.loop.id);
      assert InHands(s, s.loop.id);
      forall id ensures HasConn(t, id) <==> HasConn(s, id) || id == s.loop.id {
        if HasConn(s, id) {
          var c :| 0 <= c < |s.all| && s.all[c].id == id;
          assert t.all[c].id == id;
        }
        assert t.all[|s.all|].id == s.loop.id;
      }
      forall id ensures Accepted(t, id) <==> Accepted(s, id) {
      }
      assert Accepted(s, s.loop.id);
      assert forall c :: 0 <= c < |s.all| ==> HasConn(s, s.all[c].id);
    } else {
      SameOwners(s, t);
    }
  }

  lemma RegisterChanges(s: State, id: Id)
    ensures var t := Register(s, id);
            && t.input == s.input && t.position == s.position && t.refused == s.refused && t.wire == s.wire
            && t.sdkClosed == s.sdkClosed && |t.all| == |s.all| + 1 && t.all[|s.all|].id == id
            && t.all[|s.all|].pump == Reading && t.all[|s.all|].read == [] && t.all[|s.all|].from == s.position
            && (forall c :: 0 <= c < |s.all| ==> t.all[c].id == s.all[c].id && t.all[c].from == s.all[c].from)
            && (forall c :: 0 <= c < |s.all| ==> t.all[c].pump == s.all[c].pump && t.all[c].read == s.all[c].read)
  {
  }

  lemma RefuseOwners(s: State)
    requires Registered(s) && Owners(s) && Enabled(s, Refuse)
    ensures Owners(Apply(s, Refuse))
  {
    var t := Apply(s, Refuse);
    assert InHands(s, s.loop.id);
    forall id ensures HasConn(t, id) <==> HasConn(s, id) {
    }
    forall id ensures Accepted(t, id) <==> Accepted(s, id) {
    }
    assert Accepted(s, s.loop.id);
  }

  lemma OwnersKeep(s: State, e: Event)
    requires Distinct(s.input) && Registered(s) && Owners(s) && Enabled(s, e)
    ensures Owners(Apply(s, e))
  {
    match e {
      case Receive => ReceiveOwners(s);
      case Dialed(ok) => DialedOwners(s, ok);
      case Refuse => RefuseOwners(s);
      case _ =>
        OtherChanges(s, e);
        SameOwners(s, Apply(s, e));
    }
  }

  lemma OtherChanges(s: State, e: Event)
    requires Enabled(s, e) && !e.Receive? && !e.Dialed? && !e.Refuse?
    ensures var t := Apply(s, e);
            && t.input == s.input && t.position == s.position && t.refused == s.refused && |t.all| == |s.all|
            && (forall c :: 0 <= c < |s.all| ==> t.all[c].id == s.all[c].id)
            && (forall id :: InHands(t, id) <==> InHands(s, id))
  {
  }

  // ----- The wire -----

  /** The frames of one sub-stream; a Pong belongs to none. */
  function ToId(wire: seq<Request>, id: Id): seq<Request> {
    if wire == [] then []
    else
      var last := wire[|wire| - 1];
      ToId(wire[..|wire| - 1], id) + (if !last.Pong? && last.id == id then [last] else [])
  }

  function Carried(frames: seq<Request>): Bytes {
    if frames == [] then []
    else
      var last := frames[|frames| - 1];
      Carried(frames[..|frames| - 1]) + (if last.DataOut? then last.payload else [])
  }

  /** Nonempty Data frames, then the frame for the end once there is one. */
  predicate Talk(frames: seq<Request>, id: Id, ended: Option<End>) {
    var n := |frames| - (if ended.Some? then 1 else 0);
    && n >= 0
    && (forall i :: 0 <= i < n ==> frames[i].DataOut? && frames[i].payload != [])
    && (ended.Some? ==> frames[n] == EndFrame(id, ended.value))
  }

  function Ended(pump: Pump): Option<End> {
    if pump.Forgetting? || pump.Stopped? then Some(pump.end) else None
  }

  function InHand(pump: Pump): Bytes {
    if pump.Carrying? then pump.chunk else []
  }

  ghost predicate Talks(k: Conn, wire: seq<Request>) {
    && (k.pump.Carrying? ==> k.pump.chunk != [])
    && Talk(ToId(wire, k.id), k.id, Ended(k.pump))
    && Carried(ToId(wire, k.id)) + InHand(k.pump) == k.read
  }

  ghost predicate WireInv(s: State) {
    && (forall c :: 0 <= c < |s.all| ==> Talks(s.all[c], s.wire))
    && (forall id :: id in s.refused ==> ToId(s.wire, id) == [CloseOut(id)])
    && (forall id :: id != 0 && !HasConn(s, id) && id !in s.refused ==> ToId(s.wire, id) == [])
    && ToId(s.wire, 0) == (if s.sdkClosed then [CloseOut(0)] else [])
  }

  lemma PutToId(wire: seq<Request>, frame: Request, id: Id)
    ensures ToId(wire + [frame], id) == ToId(wire, id) + (if !frame.Pong? && frame.id == id then [frame] else [])
  {
    assert (wire + [frame])[..|wire|] == wire;
  }

  lemma PutCarried(frames: seq<Request>, frame: Request)
    ensures Carried(frames + [frame]) == Carried(frames) + (if frame.DataOut? then frame.payload else [])
  {
    assert (frames + [frame])[..|frames|] == frames;
  }

  /** A step that sends nothing: connections keep what they have said, read and hold. */
  lemma SameWire(s: State, t: State)
    requires WireInv(s) && t.wire == s.wire && t.refused == s.refused && t.sdkClosed == s.sdkClosed
    requires |t.all| == |s.all|
    requires forall c :: 0 <= c < |s.all| ==>
               t.all[c].id == s.all[c].id && Talks(t.all[c], t.wire)
    ensures WireInv(t)
  {
    forall id | HasConn(s, id) ensures HasConn(t, id) {
      var c :| 0 <= c < |s.all| && s.all[c].id == id;
      assert t.all[c].id == id;
    }
  }

  /** A new connection whose id was silent so far has said, read and holds nothing. */
  lemma NewTalks(k: Conn, wire: seq<Request>)
    requires ToId(wire, k.id) == [] && k.pump == Reading && k.read == []
    ensures Talks(k, wire)
  {
  }

  lemma RegisterWire(s: State, id: Id)
    requires WireInv(s) && id != 0 && !HasConn(s, id) && id !in s.refused
    ensures WireInv(Register(s, id))
  {
    var t := Register(s, id);
    RegisterChanges(s, id);
    NewTalks(t.all[|s.all|], t.wire);
    forall c | 0 <= c < |t.all| ensures Talks(t.all[c], t.wire) {
      assert c < |s.all| ==> Talks(s.all[c], s.wire);
    }
    forall i | HasConn(s, i) ensures HasConn(t, i) {
      var c :| 0 <= c < |s.all| && s.all[c].id == i;
      assert t.all[c].id == i;
    }
  }

  lemma DialedWire(s: State, ok: bool)
    requires Distinct(s.input) && Registered(s) && Owners(s) && WireInv(s) && Enabled(s, Dialed(ok))
    ensures WireInv(Apply(s, Dialed(ok)))
  {
    var t := Apply(s, Dialed(ok));
    if ok {
      assert InHands(s, s.loop.id) && s.loop.id != 0;
      RegisterWire(s, s.loop.id);
      var u := Register(s, s.loop.id);
      assert t == u.(loop := Receiving);
      SameWire(u, t);
    } else {
      SameWire(s, t);
    }
  }

  /** One frame for an id that no connection, or only connection c, speaks for. */
  lemma PutWire(s: State, frame: Request, c: nat)
    requires Owners(s) && WireInv(s)
    requires frame.Pong? || !HasConn(s, frame.id) || (c < |s.all| && s.all[c].id == frame.id)
    ensures forall d :: 0 <= d < |s.all| && (d == c ==> frame.Pong? || s.all[c].id != frame.id) ==>
            Talks(s.all[d], s.wire + [frame])
    ensures forall id :: (frame.Pong? || id != frame.id) ==> ToId(s.wire + [frame], id) == ToId(s.wire, id)
    ensures !frame.Pong? ==> ToId(s.wire + [frame], frame.id) == ToId(s.wire, frame.id) + [frame]
  {
    forall id
      ensures ToId(s.wire + [frame], id) ==
              ToId(s.wire, id) + (if !frame.Pong? && frame.id == id then [frame] else [])
    {
      PutToId(s.wire, frame, id);
    }
    forall d | 0 <= d < |s.all| && (d == c ==> frame.Pong? || s.all[c].id != frame.id)
      ensures Talks(s.all[d], s.wire + [frame])
    {
      assert Talks(s.all[d], s.wire);
      assert HasConn(s, s.all[d].id);
      assert ToId(s.wire + [frame], s.all[d].id) == ToId(s.wire, s.all[d].id);
    }
  }

  /** No connection has the id of the tunnel itself. */
  lemma ZeroIsTheTunnel(s: State)
    requires Distinct(s.input) && Registered(s) && Owners(s)
    ensures !HasConn(s, 0) && 0 !in s.refused
  {
  }

  lemma RefuseWire(s: State)
    requires Distinct(s.input) && Registered(s) && Owners(s) && WireInv(s) && Enabled(s, Refuse)
    ensures WireInv(Apply(s, Refuse))
  {
    var id := s.loop.id;
    RefuseChanges(s);
    assert InHands(s, id) && id != 0;
    assert ToId(s.wire, id) == [];
    RefusedWire(s, Apply(s, Refuse), id);
  }

  /** The answer to a failed dial. */
  lemma RefusedWire(s: State, t: State, id: Id)
    requires Owners(s) && WireInv(s) && !HasConn(s, id) && id != 0 && ToId(s.wire, id) == []
    requires t.all == s.all && t.sdkClosed == s.sdkClosed && t.refused == s.refused + {id}
    requires t.wire == s.wire + [CloseOut(id)]
    ensures WireInv(t)
  {
    PutWire(s, CloseOut(id), |s.all|);
    SilentStay(s, t);
  }

  lemma RefuseChanges(s: State)
    requires Enabled(s, Refuse)
    ensures var t := Apply(s, Refuse);
            && t.all == s.all && t.sdkClosed == s.sdkClosed && t.refused == s.refused + {s.loop.id}
            && t.wire == s.wire + [CloseOut(s.loop.id)]
  {
  }

  lemma SilentStay(s: State, t: State)
    requires |t.all| == |s.all| && forall c :: 0 <= c < |s.all| ==> t.all[c].id == s.all[c].id
    ensures forall id :: HasConn(s, id) <==> HasConn(t, id)
  {
    forall id ensures HasConn(s, id) <==> HasConn(t, id) {
      if HasConn(s, id) {
        var c :| 0 <= c < |s.all| && s.all[c].id == id;
        assert t.all[c].id == id;
      }
    }
  }

  lemma ControlWire(s: State, e: Event)
    requires Distinct(s.input) && Registered(s) && Owners(s) && WireInv(s) && Enabled(s, e)
             && (e.SendPong? || e.SdkClose?)
    ensures WireInv(Apply(s, e))
  {
    ZeroIsTheTunnel(s);
    PutWire(s, if e.SendPong? then Pong(s.loop.pingId) else CloseOut(0), |s.all|);
    SilentStay(s, Apply(s, e));
  }

  /** The frame a pump is about to send. */
  function NextFrame(k: Conn): Request
    requires k.pump.Carrying? || k.pump.Finishing?
  {
    if k.pump.Carrying? then DataOut(k.id, k.pump.chunk) else EndFrame(k.id, k.pump.end)
  }

  lemma PumpChanges(s: State, c: nat, e: Event)
    requires Enabled(s, e) && (e == Carry(c) || e == Finish(c))
    ensures var t := Apply(s, e);
            && t.sdkClosed == s.sdkClosed && t.refused == s.refused
            && t.wire == s.wire + [NextFrame(s.all[c])]
            && t.all == s.all[c := s.all[c].(pump := t.all[c].pump)]
            && t.all[c].pump == if e.Carry? then AfterChunk(s.all[c].pump.ending) else Forgetting(s.all[c].pump.end)
  {
  }

  lemma TalkGoesOn(frames: seq<Request>, id: Id, frame: Request)
    requires Talk(frames, id, None)
    ensures frame.DataOut? && frame.payload != [] ==> Talk(frames + [frame], id, None)
    ensures forall end :: frame == EndFrame(id, end) ==> Talk(frames + [frame], id, Some(end))
  {
  }

  lemma Talking(k: Conn, wire: seq<Request>, frames: seq<Request>)
    requires ToId(wire, k.id) == frames && Talk(frames, k.id, Ended(k.pump))
    requires (k.pump.Carrying? ==> k.pump.chunk != []) && Carried(frames) + InHand(k.pump) == k.read
    ensures Talks(k, wire)
  {
  }

  lemma CarryGoesOn(frames: seq<Request>, id: Id, chunk: Bytes, read: Bytes)
    requires Talk(frames, id, None) && chunk != [] && Carried(frames) + chunk == read
    ensures Talk(frames + [DataOut(id, chunk)], id, None) && Carried(frames + [DataOut(id, chunk)]) + [] == read
  {
    PutCarried(frames, DataOut(id, chunk));
    TalkGoesOn(frames, id, DataOut(id, chunk));
    NothingMore(read);
  }

  lemma CarryTalks(k: Conn, wire: seq<Request>)
    requires Talks(k, wire) && k.pump.Carrying?
    ensures Talks(k.(pump := AfterChunk(k.pump.ending)), wire + [DataOut(k.id, k.pump.chunk)])
  {
    var frames, f := ToId(wire, k.id), DataOut(k.id, k.pump.chunk);
    PutToId(wire, f, k.id);
    CarryGoesOn(frames, k.id, k.pump.chunk, k.read);
    CarriedPump(k);
    Talking(k.(pump := AfterChunk(k.pump.ending)), wire + [f], frames + [f]);
  }

  lemma CarriedPump(k: Conn)
    requires k.pump.Carrying?
    ensures var l := k.(pump := AfterChunk(k.pump.ending));
            && l.id == k.id && l.read == k.read && !l.pump.Carrying? && Ended(l.pump) == None && InHand(l.pump) == []
  {
  }

  lemma FinishTalks(k: Conn, wire: seq<Request>)
    requires Talks(k, wire) && k.pump.Finishing?
    ensures Talks(k.(pump := Forgetting(k.pump.end)), wire + [EndFrame(k.id, k.pump.end)])
  {
    var frames, f := ToId(wire, k.id), EndFrame(k.id, k.pump.end);
    PutToId(wire, f, k.id);
    PutCarried(frames, f);
    TalkGoesOn(frames, k.id, f);
    NothingMore(Carried(frames));
    Talking(k.(pump := Forgetting(k.pump.end)), wire + [f], frames + [f]);
  }

  lemma NothingMore(b: Bytes)
    ensures b + [] == b
  {
  }

  /** One frame of connection c, which still talks; every other connection is as it was. */
  lemma OneSpoke(s: State, t: State, c: nat, frame: Request)
    requires Owners(s) && WireInv(s) && c < |s.all| && !frame.Pong? && frame.id == s.all[c].id != 0
    requires t.wire == s.wire + [frame] && t.refused == s.refused && t.sdkClosed == s.sdkClosed
    requires |t.all| == |s.all| && t.all[c].id == s.all[c].id && Talks(t.all[c], t.wire)
    requires forall d :: 0 <= d < |s.all| && d != c ==> t.all[d] == s.all[d]
    ensures WireInv(t)
  {
    assert HasConn(s, frame.id);
    PutWire(s, frame, c);
    SilentStay(s, t);
    forall d | 0 <= d < |t.all| ensures Talks(t.all[d], t.wire) {
      assert d != c ==> s.all[d].id != frame.id;
    }
  }

  lemma PumpWire(s: State, c: nat, e: Event)
    requires Distinct(s.input) && Registered(s) && Owners(s) && WireInv(s) && Enabled(s, e)
             && (e == Carry(c) || e == Finish(c))
    ensures WireInv(Apply(s, e))
  {
    PumpChanges(s, c, e);
    if e.Carry? {
      CarryTalks(s.all[c], s.wire);
    } else {
      FinishTalks(s.all[c], s.wire);
    }
    assert HasConn(s, s.all[c].id);
    ZeroIsTheTunnel(s);
    OneSpoke(s, Apply(s, e), c, NextFrame(s.all[c]));
  }

  lemma ReadTalks(k: Conn, wire: seq<Request>, chunk: Bytes, end: Option<End>)
    requires Talks(k, wire) && k.pump.Reading?
    ensures Talks(k.(read := k.read + chunk, pump := AfterRead(chunk, end)), wire)
  {
    NothingMore(Carried(ToId(wire, k.id)));
    if chunk == [] {
      NothingMore(k.read);
      NothingMore(k.read + chunk);
    }
  }

  lemma ReadWire(s: State, c: nat, chunk: Bytes, end: Option<End>)
    requires WireInv(s) && Enabled(s, Read(c, chunk, end))
    ensures WireInv(Apply(s, Read(c, chunk, end)))
  {
    var t := Apply(s, Read(c, chunk, end));
    assert t.all == s.all[c := s.all[c].(read := s.all[c].read + chunk, pump := AfterRead(chunk, end))];
    ReadTalks(s.all[c], s.wire, chunk, end);
    forall d | 0 <= d < |s.all| ensures Talks(t.all[d], t.wire) {
      assert d != c ==> t.all[d] == s.all[d];
    }
    SameWire(s, t);
  }

  lemma ForgetChanges(s: State, c: nat)
    requires Enabled(s, Forget(c))
    ensures var t := Apply(s, Forget(c));
            && t.wire == s.wire && t.refused == s.refused && t.sdkClosed == s.sdkClosed && |t.all| == |s.all|
            && (forall d :: 0 <= d < |s.all| ==> t.all[d].id == s.all[d].id && t.all[d].read == s.all[d].read)
            && (forall d :: 0 <= d < |s.all| && d != c ==> t.all[d].pump == s.all[d].pump)
            && t.all[c].pump.Stopped? && t.all[c].pump.end == s.all[c].pump.end
  {
    var u := Unregister(s, s.all[c].id);
    assert |u.all| == |s.all|;
    assert forall d :: 0 <= d < |s.all| ==>
           u.all[d].id == s.all[d].id && u.all[d].read == s.all[d].read && u.all[d].pump == s.all[d].pump;
  }

  lemma ForgetWire(s: State, c: nat)
    requires WireInv(s) && Enabled(s, Forget(c))
    ensures WireInv(Apply(s, Forget(c)))
  {
    var t := Apply(s, Forget(c));
    ForgetChanges(s, c);
    forall d | 0 <= d < |s.all| ensures Talks(t.all[d], t.wire) {
      assert Talks(s.all[d], s.wire);
    }
    SameWire(s, t);
  }

  lemma LoopChanges(s: State, e: Event)
    requires Enabled(s, e)
    requires e.ReceiveFails? || e.Write? || e.CloseWrite? || e.CloseConn? || e.Leave?
    ensures var t := Apply(s, e);
            && t.wire == s.wire && t.refused == s.refused && t.sdkClosed == s.sdkClosed && |t.all| == |s.all|
            && forall c :: 0 <= c < |s.all| ==>
                 t.all[c].id == s.all[c].id && t.all[c].pump == s.all[c].pump && t.all[c].read == s.all[c].read
  {
  }

  lemma LoopWire(s: State, e: Event)
    requires WireInv(s) && Enabled(s, e)
    requires e.ReceiveFails? || e.Write? || e.CloseWrite? || e.CloseConn? || e.Leave?
    ensures WireInv(Apply(s, e))
  {
    var t := Apply(s, e);
    LoopChanges(s, e);
    forall d | 0 <= d < |s.all| ensures Talks(t.all[d], t.wire) {
      assert Talks(s.all[d], s.wire);
    }
    SameWire(s, t);
  }

  lemma ReceiveWire(s: State)
    requires WireInv(s) && Enabled(s, Receive)
    ensures WireInv(Apply(s, Receive))
  {
    var t := Apply(s, Receive);
    ReceiveChanges(s);
    forall d | 0 <= d < |s.all| ensures Talks(t.all[d], t.wire) {
      assert Talks(s.all[d], s.wire);
    }
    SameWire(s, t);
  }

  lemma WireKeeps(s: State, e: Event)
    requires Distinct(s.input) && Registered(s) && Owners(s) && WireInv(s) && Enabled(s, e)
    ensures WireInv(Apply(s, e))
  {
    match e {
      case Receive => ReceiveWire(s);
      case Dialed(ok) => DialedWire(s, ok);
      case Refuse => RefuseWire(s);
      case SendPong => ControlWire(s, e);
      case SdkClose => ControlWire(s, e);
      case Carry(c) => PumpWire(s, c, e);
      case Finish(c) => PumpWire(s, c, e);
      case Read(c, chunk, end) => ReadWire(s, c, chunk, end);
      case Forget(c) => ForgetWire(s, c);
      case _ => LoopWire(s, e);
    }
  }

  // ----- Keepalives -----

  function Pings(frames: seq<Response>): seq<nat> {
    if frames == [] then []
    else
      var last := frames[|frames| - 1];
      Pings(frames[..|frames| - 1]) + (if last.Ping? then [last.pingId] else [])
  }

  function Pongs(wire: seq<Request>): seq<nat> {
    if wire == [] then []
    else
      var last := wire[|wire| - 1];
      Pongs(wire[..|wire| - 1]) + (if last.Pong? then [last.pingId] else [])
  }

  ghost predicate PingInv(s: State) {
    && s.position <= |s.input|
    && Pongs(s.wire) + (if s.loop.Answering? then [s.loop.pingId] else []) == Pings(s.input[..s.position])
  }

  lemma PingsKeep(s: State, e: Event)
    requires PingInv(s) && Enabled(s, e)
    ensures PingInv(Apply(s, e))
  {
    var t := Apply(s, e);
    PingChanges(s, e);
    if e.Receive? {
      assert s.input[..t.position][..s.position] == s.input[..s.position];
      assert Pongs(s.wire) + [] == Pongs(s.wire);
    }
    if t.wire != s.wire {
      assert t.wire[..|s.wire|] == s.wire;
    }
  }

  lemma PingChanges(s: State, e: Event)
    requires Enabled(s, e)
    ensures var t := Apply(s, e);
            && t.input == s.input && t.position == (if e.Receive? then s.position + 1 else s.position)
            && (t.wire == s.wire || (|t.wire| == |s.wire| + 1 && t.wire[..|s.wire|] == s.wire))
            && (t.wire == s.wire || (t.wire[|s.wire|].Pong? <==> e.SendPong?))
            && (e.SendPong? ==> t.wire == s.wire + [Pong(s.loop.pingId)])
            && (t.loop.Answering? <==>
                  if e.Receive? then s.input[s.position].Ping? else s.loop.Answering? && !e.SendPong?)
            && (t.loop.Answering? ==> t.loop.pingId == if e.Receive? then s.input[s.position].pingId else s.loop.pingId)
  {
  }

  // ----- How a connection leaves the table -----

  /** Its own pump removed it. */
  predicate PumpRemoved(k: Conn) {
    k.pump.Stopped? && k.pump.found
  }

  /** Once out of the table, exactly one of: removed by the pump, closed, about to be closed. */
  predicate FateOf(k: Conn, shutting: bool) {
    if k.until.None? then !k.closed && !k.pump.Stopped? && !shutting
    else if PumpRemoved(k) then !k.closed && !shutting
    else k.closed != shutting
  }

  predicate Shuts(loop: Loop, c: nat) {
    loop == Shutting(c)
  }

  ghost predicate Fates(s: State) {
    forall c :: 0 <= c < |s.all| ==> FateOf(s.all[c], Shuts(s.loop, c))
  }

  lemma ReceiveFates(s: State, c: nat)
    requires Registered(s) && Enabled(s, Receive) && c < |s.all| && FateOf(s.all[c], Shuts(s.loop, c))
    ensures FateOf(Apply(s, Receive).all[c], Shuts(Apply(s, Receive).loop, c))
  {
  }

  lemma DialedFates(s: State, ok: bool, c: nat)
    requires Registered(s) && Owners(s) && Enabled(s, Dialed(ok)) && c < |Apply(s, Dialed(ok)).all|
    requires c < |s.all| ==> FateOf(s.all[c], Shuts(s.loop, c))
    ensures FateOf(Apply(s, Dialed(ok)).all[c], Shuts(Apply(s, Dialed(ok)).loop, c))
  {
    assert InHands(s, s.loop.id);
    assert s.loop.id in s.conns ==> s.all[s.conns[s.loop.id]].id == s.loop.id;
  }

  lemma ForgetFates(s: State, c: nat, d: nat)
    requires Registered(s) && Owners(s) && Enabled(s, Forget(c)) && d < |s.all| && FateOf(s.all[d], Shuts(s.loop, d))
    ensures FateOf(Apply(s, Forget(c)).all[d], Shuts(s.loop, d))
  {
    var id := s.all[c].id;
    if id in s.conns {
      assert s.all[s.conns[id]].id == id;
      assert s.conns[id] == c;
    }
  }

  lemma OtherFates(s: State, e: Event, c: nat)
    requires Registered(s) && Enabled(s, e) && !e.Receive? && !e.Dialed? && !e.Forget?
    requires c < |s.all| && FateOf(s.all[c], Shuts(s.loop, c))
    ensures FateOf(Apply(s, e).all[c], Shuts(Apply(s, e).loop, c))
  {
  }

  lemma FatesKeep(s: State, e: Event)
    requires Registered(s) && Owners(s) && Fates(s) && Enabled(s, e)
    ensures Fates(Apply(s, e))
  {
    forall c | 0 <= c < |Apply(s, e).all| ensures FateOf(Apply(s, e).all[c], Shuts(Apply(s, e).loop, c)) {
      match e {
        case Receive => ReceiveFates(s, c);
        case Dialed(ok) => DialedFates(s, ok, c);
        case Forget(d) => ForgetFates(s, d, c);
        case _ => OtherFates(s, e, c);
      }
    }
  }

  // ----- Why a connection leaves the table -----

  /**
   * In the table: no Close of its id has come, its pump has not stopped, the loop is
   * not gone. Out of it: one of the three; and nothing after a Close was counted.
   */
  ghost predicate Reason(k: Conn, input: seq<Response>, position: nat, exited: bool) {
    var window := Window(k, input, position);
    if k.until.None? then !FrameIn(window, Close(k.id)) && !exited && !k.pump.Stopped?
    else
      && (FrameIn(window, Close(k.id)) || PumpRemoved(k) || exited)
      && (window != [] ==> !FrameIn(window[..|window| - 1], Close(k.id)))
  }

  ghost predicate Reasons(s: State) {
    forall c :: 0 <= c < |s.all| ==> Reason(s.all[c], s.input, s.position, s.loop.Exited?)
  }

  lemma NoFrameShorter(frames: seq<Response>, frame: Response)
    requires frames != [] && !FrameIn(frames, frame)
    ensures !FrameIn(frames[..|frames| - 1], frame)
  {
  }

  /** A frame that is no Close: the table stays as it is. */
  lemma FrameReason(s: State, c: nat)
    requires Registered(s) && Enabled(s, Receive) && c < |s.all| && !s.input[s.position].Close?
    requires Reason(s.all[c], s.input, s.position, false)
    ensures Apply(s, Receive).all == s.all && !Apply(s, Receive).loop.Exited?
    ensures Reason(s.all[c], s.input, s.position + 1, false)
  {
    assert Dated(s.all[c], s.input, s.position);
    WindowTakes(s.all[c], s.input, s.position, Close(s.all[c].id));
  }

  /** A Close of another id, or for a connection that is out of the table. */
  lemma OtherCloseReason(s: State, c: nat)
    requires Registered(s) && c < |s.all| && s.position < |s.input|
    requires !(s.all[c].until.None? && s.input[s.position] == Close(s.all[c].id))
    requires Reason(s.all[c], s.input, s.position, false)
    ensures Reason(s.all[c], s.input, s.position + 1, false)
  {
    assert Dated(s.all[c], s.input, s.position);
    WindowTakes(s.all[c], s.input, s.position, Close(s.all[c].id));
  }

  /** The Close that takes it out. */
  lemma OwnCloseReason(s: State, c: nat)
    requires Registered(s) && c < |s.all| && s.position < |s.input|
    requires s.all[c].until.None? && s.input[s.position] == Close(s.all[c].id)
    requires Reason(s.all[c], s.input, s.position, false)
    ensures Reason(s.all[c].(until := Some(s.position + 1)), s.input, s.position + 1, false)
  {
    var k := s.all[c];
    assert Dated(k, s.input, s.position);
    var before, after := Window(k, s.input, s.position), Window(k, s.input, s.position + 1);
    assert after[..|after| - 1] == before;
    WindowTakes(k, s.input, s.position, Close(k.id));
  }

  lemma CloseReason(s: State, c: nat)
    requires Registered(s) && Enabled(s, Receive) && c < |s.all| && s.input[s.position].Close?
    requires Reason(s.all[c], s.input, s.position, false)
    ensures var t := Apply(s, Receive); Reason(t.all[c], s.input, s.position + 1, false) && !t.loop.Exited?
  {
    var id := s.input[s.position].id;
    var t := Apply(s, Receive);
    if s.all[c].until.None? && s.all[c].id == id {
      OwnCloseReason(s, c);
      assert t.all[c] == s.all[c].(until := Some(s.position + 1));
    } else {
      OtherCloseReason(s, c);
      assert t.all[c] == s.all[c];
    }
  }

  lemma DialedReason(s: State, ok: bool, c: nat)
    requires Registered(s) && Owners(s) && Enabled(s, Dialed(ok)) && c < |Apply(s, Dialed(ok)).all|
    requires c < |s.all| ==> Reason(s.all[c], s.input, s.position, false)
    ensures Reason(Apply(s, Dialed(ok)).all[c], s.input, s.position, false)
  {
    assert InHands(s, s.loop.id);
    assert s.loop.id in s.conns ==> s.all[s.conns[s.loop.id]].id == s.loop.id;
    if ok && c == |s.all| {
      assert Window(Apply(s, Dialed(ok)).all[c], s.input, s.position) == [];
    }
  }

  lemma ForgetReason(s: State, c: nat, d: nat)
    requires Registered(s) && Owners(s) && Enabled(s, Forget(c)) && d < |s.all|
    requires Reason(s.all[d], s.input, s.position, s.loop.Exited?)
    ensures Reason(Apply(s, Forget(c)).all[d], s.input, s.position, s.loop.Exited?)
  {
    var id, t := s.all[c].id, Apply(s, Forget(c));
    assert Dated(s.all[d], s.input, s.position);
    assert id in s.conns ==> s.all[s.conns[id]].id == id && s.conns[id] == c;
    var window := Window(s.all[d], s.input, s.position);
    assert Window(t.all[d], s.input, s.position) == window;
    if window != [] && !FrameIn(window, Close(s.all[d].id)) {
      NoFrameShorter(window, Close(s.all[d].id));
    }
  }

  lemma LeaveReason(s: State, c: nat)
    requires Registered(s) && Enabled(s, Leave) && c < |s.all| && Reason(s.all[c], s.input, s.position, false)
    ensures Reason(Apply(s, Leave).all[c], s.input, s.position, true)
  {
    var window := Window(s.all[c], s.input, s.position);
    assert Window(Apply(s, Leave).all[c], s.input, s.position) == window;
    if window != [] && !FrameIn(window, Close(s.all[c].id)) {
      NoFrameShorter(window, Close(s.all[c].id));
    }
  }

  lemma OtherReason(s: State, e: Event, c: nat)
    requires Registered(s) && Enabled(s, e) && c < |s.all|
    requires !e.Receive? && !e.Dialed? && !e.Forget? && !e.Leave?
    requires Reason(s.all[c], s.input, s.position, s.loop.Exited?)
    ensures var t := Apply(s, e); Reason(t.all[c], s.input, s.position, t.loop.Exited?)
  {
    var t := Apply(s, e);
    assert t.all[c].id == s.all[c].id && t.all[c].from == s.all[c].from && t.all[c].until == s.all[c].until;
    assert t.loop.Exited? == s.loop.Exited?;
    assert Window(t.all[c], s.input, s.position) == Window(s.all[c], s.input, s.position);
    assert t.all[c].pump.Stopped? <==> s.all[c].pump.Stopped?;
    assert PumpRemoved(t.all[c]) <==> PumpRemoved(s.all[c]);
  }

  lemma ReasonsKeep(s: State, e: Event)
    requires Registered(s) && Owners(s) && Reasons(s) && Enabled(s, e)
    ensures Reasons(Apply(s, e))
  {
    var t := Apply(s, e);
    forall c | 0 <= c < |t.all| ensures Reason(t.all[c], t.input, t.position, t.loop.Exited?) {
      StepReason(s, e, c);
    }
  }

  lemma StepReason(s: State, e: Event, c: nat)
    requires Registered(s) && Owners(s) && Enabled(s, e) && c < |Apply(s, e).all|
    requires c < |s.all| ==> Reason(s.all[c], s.input, s.position, s.loop.Exited?)
    ensures var t := Apply(s, e); Reason(t.all[c], t.input, t.position, t.loop.Exited?)
  {
    PingChanges(s, e);
    match e {
      case Receive =>
        if s.input[s.position].Close? {
          CloseReason(s, c);
        } else {
          FrameReason(s, c);
        }
      case Dialed(ok) => DialedReason(s, ok, c);
      case Forget(d) => ForgetReason(s, d, c);
      case Leave => LeaveReason(s, c);
      case _ => OtherReason(s, e, c);
    }
  }

  // ----- Theorems -----

  ghost predicate Inv(s: State) {
    && Registered(s) && Delivered(s) && HalfCloses(s) && PingInv(s)
    && (Distinct(s.input) ==> Owners(s) && WireInv(s) && Fates(s) && Reasons(s))
  }

  lemma StepKeepsInv(s: State, e: Event)
    requires Inv(s) && Enabled(s, e)
    ensures Inv(Apply(s, e)) && Apply(s, e).input == s.input
  {
    RegisteredKeeps(s, e);
    DeliveredKeeps(s, e);
    HalfClosesKeep(s, e);
    PingsKeep(s, e);
    PingChanges(s, e);
    if Distinct(s.input) {
      OwnersKeep(s, e);
      WireKeeps(s, e);
      FatesKeep(s, e);
      ReasonsKeep(s, e);
    }
  }

  lemma {:induction false} RunKeepsInv(s: State, run: seq<Event>)
    requires Inv(s) && IsRun(s, run)
    ensures Inv(After(s, run))
    decreases |run|
  {
    if run != [] {
      StepKeepsInv(s, run[0]);
      RunKeepsInv(Apply(s, run[0]), run[1..]);
    }
  }

  lemma InitialInv(input: seq<Response>)
    ensures Inv(Initial(input))
  {
    var s := Initial(input);
    assert forall id :: !HasConn(s, id) && !Accepted(s, id);
    assert forall id :: ToId(s.wire, id) == [];
  }

  lemma ReachableInv(s: State)
    requires Reachable(s)
    ensures Inv(s)
  {
    var run :| IsRun(Initial(s.input), run) && After(Initial(s.input), run) == s;
    InitialInv(s.input);
    RunKeepsInv(Initial(s.input), run);
  }

  /**
   * Inbound, for any input: a host connection was written exactly the payloads of
   * its id, in order, that arrived from its Accept until it left the table; the
   * last one may still be on its way.
   */
  lemma InboundInOrder(s: State, c: nat)
    requires Reachable(s) && c < |s.all|
    ensures var k := s.all[c];
            var stop := if k.until.Some? then k.until.value else s.position;
            && 0 < k.from <= stop <= s.position <= |s.input|
            && s.input[k.from - 1] == Accept(k.id)
            && k.written + InFlight(s.loop, c) == PayloadsFor(s.input[k.from..stop], k.id)
    ensures s.all[c].until.None? <==> s.all[c].id in s.conns && s.conns[s.all[c].id] == c
  {
    ReachableInv(s);
    assert Dated(s.all[c], s.input, s.position);
    assert DeliveredTo(s, c);
  }

  /**
   * A HalfClose of the engine: for any input, the write side of a host connection is
   * closed, or about to be, exactly if one for its id came while it was registered.
   */
  lemma HalfCloseIff(s: State, c: nat)
    requires Reachable(s) && c < |s.all|
    ensures var k := s.all[c];
            var stop := if k.until.Some? then k.until.value else s.position;
            && k.from <= stop <= |s.input|
            && (k.writeClosed || s.loop == HalfClosing(c) <==>
                  exists i :: k.from <= i < stop && s.input[i] == HalfClose(k.id))
  {
    ReachableInv(s);
    assert Dated(s.all[c], s.input, s.position);
    assert HalfClosed(s, c);
    FramesOfWindow(s.all[c], s.input, s.position, HalfClose(s.all[c].id));
  }

  lemma FramesOfWindow(k: Conn, input: seq<Response>, position: nat, frame: Response)
    requires Dated(k, input, position)
    ensures var stop := if k.until.Some? then k.until.value else position;
            FrameIn(Window(k, input, position), frame) <==> exists i :: k.from <= i < stop && input[i] == frame
  {
    var stop := if k.until.Some? then k.until.value else position;
    var window := Window(k, input, position);
    assert forall i :: 0 <= i < |window| ==> window[i] == input[k.from + i];
    if exists i :: k.from <= i < stop && input[i] == frame {
      var i :| k.from <= i < stop && input[i] == frame;
      assert window[i - k.from] == frame;
    }
  }

  /**
   * Why a connection is out of the table: the engine closed it, its own pump removed
   * it, or the receive loop is gone; the first Close of its id while it is in the
   * table takes it out there and then.
   */
  lemma LeavesTableIff(s: State, c: nat)
    requires Reachable(s) && Distinct(s.input) && c < |s.all|
    ensures var k := s.all[c];
            var stop := if k.until.Some? then k.until.value else s.position;
            && k.from <= stop <= |s.input|
            && (k.until.Some? <==>
                  (exists i :: k.from <= i < stop && s.input[i] == Close(k.id)) || PumpRemoved(k) || s.loop.Exited?)
            && forall i :: k.from <= i < stop && s.input[i] == Close(k.id) ==> k.until == Some(i + 1)
  {
    ReachableReason(s, c);
    FramesOfWindow(s.all[c], s.input, s.position, Close(s.all[c].id));
    CloseIsLast(s.all[c], s.input, s.position, s.loop.Exited?);
  }

  lemma ReachableReason(s: State, c: nat)
    requires Reachable(s) && Distinct(s.input) && c < |s.all|
    ensures Dated(s.all[c], s.input, s.position) && Reason(s.all[c], s.input, s.position, s.loop.Exited?)
  {
    ReachableInv(s);
  }

  lemma CloseIsLast(k: Conn, input: seq<Response>, position: nat, exited: bool)
    requires Dated(k, input, position) && Reason(k, input, position, exited)
    ensures var stop := if k.until.Some? then k.until.value else position;
            forall i :: k.from <= i < stop && input[i] == Close(k.id) ==> k.until == Some(i + 1)
  {
    var window := Window(k, input, position);
    var stop := if k.until.Some? then k.until.value else position;
    assert forall j :: 0 <= j < |window| - 1 ==> window[..|window| - 1][j] == window[j] == input[k.from + j];
    forall i | k.from <= i < stop && input[i] == Close(k.id) ensures k.until == Some(i + 1) {
      assert window[i - k.from] == Close(k.id);
    }
  }

  /**
   * Outbound: under any interleaving, the frames of one connection are nonempty Data
   * frames that carry what was read from the host, then, once the pump is past its
   * end, one HalfClose or Close and nothing more.
   */
  lemma OutboundInOrder(s: State, c: nat)
    requires Reachable(s) && Distinct(s.input) && c < |s.all|
    ensures var k, frames := s.all[c], ToId(s.wire, s.all[c].id);
            && Talk(frames, k.id, Ended(k.pump))
            && Carried(frames) + InHand(k.pump) == k.read
            && (Ended(k.pump).Some? ==> Carried(frames) == k.read)
    ensures var k, frames := s.all[c], ToId(s.wire, s.all[c].id);
            && (Ended(k.pump) == Some(Eof) ==> frames != [] && frames[|frames| - 1] == HalfCloseOut(k.id))
            && (Ended(k.pump) == Some(ReadError) ==> frames != [] && frames[|frames| - 1] == CloseOut(k.id))
  {
    ReachableInv(s);
    assert Talks(s.all[c], s.wire);
  }

  /**
   * One read and what it leads to: its bytes in one Data frame if there are any, then
   * a HalfClose at the end of the host's data, a Close at any other error.
   */
  lemma ReadLeadsTo(s: State, c: nat, chunk: Bytes, end: End)
    requires c < |s.all| && s.all[c].pump.Reading? && |chunk| <= BUFFER
    ensures var t := Apply(s, Read(c, chunk, Some(end)));
            var u := if chunk == [] then t else Apply(t, Carry(c));
            var data := if chunk == [] then [] else [DataOut(s.all[c].id, chunk)];
            var last := if end.Eof? then HalfCloseOut(s.all[c].id) else CloseOut(s.all[c].id);
            && Enabled(u, Finish(c)) && Apply(u, Finish(c)).wire == s.wire + data + [last]
            && Enabled(Apply(u, Finish(c)), Forget(c))
    ensures var t := Apply(s, Read(c, chunk, None));
            var u := if chunk == [] then t else Apply(t, Carry(c));
            var data := if chunk == [] then [] else [DataOut(s.all[c].id, chunk)];
            u.all[c].pump.Reading? && u.wire == s.wire + data
  {
  }

  /** An id whose dial failed gets a Close and nothing else; ids nobody accepted get nothing. */
  lemma OtherIds(s: State, id: Id)
    requires Reachable(s) && Distinct(s.input)
    ensures id in s.refused ==> ToId(s.wire, id) == [CloseOut(id)] && !HasConn(s, id)
    ensures !Accepted(s, id) && id != 0 ==> ToId(s.wire, id) == []
    ensures ToId(s.wire, 0) == if s.sdkClosed then [CloseOut(0)] else []
    ensures Accepted(s, id) && !InHands(s, id) ==> HasConn(s, id) || id in s.refused
  {
    ReachableInv(s);
  }

  /** Every ping is answered once, in order. */
  lemma PingsAnswered(s: State)
    requires Reachable(s)
    ensures s.position <= |s.input|
    ensures Pongs(s.wire) + (if s.loop.Answering? then [s.loop.pingId] else []) == Pings(s.input[..s.position])
  {
    ReachableInv(s);
  }

  /**
   * When the receive loop is gone, every host connection is out of the table, and
   * it was closed if and only if it was not its own pump that removed it.
   */
  lemma ClosedUnlessPumpRemoved(s: State, c: nat)
    requires Reachable(s) && Distinct(s.input) && s.loop.Exited? && c < |s.all|
    ensures s.all[c].until.Some?
    ensures s.all[c].closed <==> !PumpRemoved(s.all[c])
  {
    ReachableInv(s);
    assert FateOf(s.all[c], Shuts(s.loop, c));
  }

  lemma Follow(s: State, e: Event) returns (t: State)
    requires Reachable(s) && Enabled(s, e)
    ensures t == Apply(s, e) && Reachable(t)
  {
    ReachableStep(s, e);
    t := Apply(s, e);
  }

  /** A connection whose host sends nothing, up to the end of its pump. */
  function Cut(input: seq<Response>): State {
    State(input, 1, Receiving, map[], [Conn(1, Stopped(Eof, true), [], [], false, false, 1, Some(1))], {},
          [HalfCloseOut(1)], false)
  }

  lemma CutIsReachable(input: seq<Response>)
    requires |input| > 0 && input[0] == Accept(1)
    ensures Reachable(Cut(input))
  {
    var s := Initial(input);
    assert IsRun(s, []) && After(s, []) == s;
    s := Follow(s, Receive);
    s := Follow(s, Dialed(true));
    assert s.conns == map[1 := 0] && s.all == [Conn(1, Reading, [], [], false, false, 1, None)];
    s := Follow(s, Read(0, [], Some(Eof)));
    assert s.all[0] == Conn(1, Finishing(Eof), [], [], false, false, 1, None);
    s := Follow(s, Finish(0));
    assert s.all == [Conn(1, Forgetting(Eof), [], [], false, false, 1, None)];
    s := Follow(s, Forget(0));
    assert s.conns == map[];
    assert s.all[0] == Conn(1, Stopped(Eof, true), [], [], false, false, 1, Some(1));
    assert s.all == Cut(input).all;
  }

  /**
   * A host that ends its side first: what the sandbox still sends it is dropped, and
   * its connection is never closed.
   */
  lemma HostEndsFirst(payload: Bytes) returns (s: State)
    ensures Reachable(s) && s.input == [Accept(1), Data(1, payload)] && s.position == 2 && s.loop.Exited?
    ensures s.wire == [HalfCloseOut(1)] && |s.all| == 1
    ensures s.all[0].written == [] && !s.all[0].closed
  {
    s := Cut([Accept(1), Data(1, payload)]);
    CutIsReachable(s.input);
    s := Follow(s, Receive);
    s := Follow(s, ReceiveFails);
    s := Follow(s, Leave);
  }
}
