/**
 * The loops and objects behind the pipeline, as the source writes them: the
 * one-frame push-back, the frame pump, a copier, the re-aggregation loop of Exec
 * and the settled outcome of a run handle.
 */
module RunHandles {
  import opened Wrappers
  import opened RunPipeline

  /** One answer of the underlying stream: a frame, a response without one, or an error. */
  datatype Reply = Got(frame: Frame) | NoFrame | Lost(error: int)

  /** dataPlaneRunStream (sandbox/run.go:59-66, 118-154). */
  class RunStream {
    var pending: Option<Reply>
    var upstream: seq<Reply>

    /** What successive Receive calls will return. */
    ghost function Upcoming(): seq<Reply>
      reads this
    {
      (if pending.Some? then [pending.value] else []) + upstream
    }

    constructor (upstream: seq<Reply>)
      ensures Upcoming() == upstream
    {
      this.pending, this.upstream := None, upstream;
    }

    method Receive() returns (reply: Reply)
      requires Upcoming() != []
      modifies this
      ensures old(Upcoming()) == [reply] + Upcoming()
      ensures pending.None?
    {
      if pending.Some? {
        reply := pending.value;
        pending := None;
        return;
      }
      reply := upstream[0];
      upstream := upstream[1..];
    }

    /** runStreamSendError: a send that failed with EOF looks for the server's own verdict. */
    method SendError(eof: bool, sendError: int) returns (error: Option<int>)
      requires eof ==> Upcoming() != []
      modifies this
      ensures !eof ==> error == Some(sendError) && Upcoming() == old(Upcoming())
      ensures eof ==> match old(Upcoming())[0]
                      case Lost(e) => error == Some(e)
                      case NoFrame => error == Some(sendError)
                      case Got(_) => error == None && Upcoming() == old(Upcoming())
      ensures eof && !old(Upcoming())[0].Got? ==> Upcoming() == old(Upcoming())[1..]
    {
      if !eof {
        return Some(sendError);
      }
      var first := Receive();
      match first
      case Lost(e) => return Some(e);
      case NoFrame => return Some(sendError);
      case Got(_) =>
        pending := Some(first);
        return None;
    }
  }

  /**
   * pumpResponses on the frames that arrive, until one ends the run. It returns
   * what it accumulates and what it writes to the two pipes.
   */
  method PumpResponses(frames: seq<Frame>, streamOnly: bool)
    returns (result: Pair<Bytes>, written: Pair<Bytes>, outcome: Option<Outcome>)
    ensures written == Pair(Sent(frames, false), Sent(frames, true))
    ensures result == if streamOnly then Pair([], []) else written
    ensures outcome == Ending(frames)
  {
    result, written, outcome := Pair([], []), Pair([], []), None;
    var rest := frames;
    while rest != []
      invariant written.out + Sent(rest, false) == Sent(frames, false)
      invariant written.err + Sent(rest, true) == Sent(frames, true)
      invariant Ending(rest) == Ending(frames) && outcome.None?
      invariant result == if streamOnly then Pair([], []) else written
      decreases |rest|
    {
      var frame := rest[0];
      match frame {
      case Keepalive =>
      case Broken(e) =>
        NothingMore(written);
        return result, written, Some(Failed(e));
      case Frame(stdout, stderr, exit) =>
        PumpedFrame(written, frame, rest);
        NothingMore(written);
        if |stdout| > 0 {
          if !streamOnly {
            result := result.(out := result.out + stdout);
          }
          written := written.(out := written.out + stdout);
        }
        if |stderr| > 0 {
          if !streamOnly {
            result := result.(err := result.err + stderr);
          }
          written := written.(err := written.err + stderr);
        }
        if exit.Some? {
          return result, written, exit;
        }
      }
      rest := rest[1..];
    }
    NothingMore(written);
  }

  lemma NothingMore(p: Pair<Bytes>)
    ensures p.out + [] == p.out && p.err + [] == p.err
  {
  }

  lemma PumpedFrame(written: Pair<Bytes>, frame: Frame, rest: seq<Frame>)
    requires rest != [] && rest[0] == frame && frame.Frame?
    ensures frame.exit.Some? ==> written.out + Sent(rest, false) == written.out + frame.stdout
    ensures frame.exit.Some? ==> written.err + Sent(rest, true) == written.err + frame.stderr
    ensures frame.exit.None? ==>
              written.out + Sent(rest, false) == (written.out + frame.stdout) + Sent(rest[1..], false)
    ensures frame.exit.None? ==> written.err + Sent(rest, true) == (written.err + frame.stderr) + Sent(rest[1..], true)
  {
  }

  /** copyRunOutput on a pipe whose writes add up to `data`, read `BUFFER` bytes at most at a time. */
  method CopyRunOutput(data: Bytes, stderr: bool) returns (outputs: seq<Output>)
    ensures BytesOf(outputs, stderr) == data && BytesOf(outputs, !stderr) == []
    ensures forall o | o in outputs :: o.isStderr == stderr && 0 < |o.data| <= BUFFER
  {
    outputs := [];
    var rest := data;
    while rest != []
      invariant BytesOf(outputs, stderr) + rest == data && BytesOf(outputs, !stderr) == []
      invariant forall o | o in outputs :: o.isStderr == stderr && 0 < |o.data| <= BUFFER
      decreases |rest|
    {
      var n := if |rest| < BUFFER then |rest| else BUFFER;
      OneChunk(outputs, rest, n, stderr);
      outputs := outputs + [Output(rest[..n], stderr)];
      rest := rest[n..];
    }
  }

  lemma OneChunk(outputs: seq<Output>, rest: Bytes, n: nat, stderr: bool)
    requires n <= |rest|
    ensures var more := outputs + [Output(rest[..n], stderr)];
            && BytesOf(more, stderr) + rest[n..] == BytesOf(outputs, stderr) + rest
            && BytesOf(more, !stderr) == BytesOf(outputs, !stderr)
  {
    var chunk := Output(rest[..n], stderr);
    OneMore(outputs, chunk, stderr);
    OneMore(outputs, chunk, !stderr);
    CutAt(BytesOf(outputs, stderr), rest, n);
    NothingFirst(BytesOf(outputs, !stderr));
  }

  lemma OneMore(outputs: seq<Output>, chunk: Output, side: bool)
    ensures BytesOf(outputs + [chunk], side) ==
            BytesOf(outputs, side) + (if chunk.isStderr == side then chunk.data else [])
  {
    BytesOfAppend(outputs, [chunk], side);
    BytesOfOne(chunk, side);
  }

  lemma CutAt(before: Bytes, rest: Bytes, n: nat)
    requires n <= |rest|
    ensures (before + rest[..n]) + rest[n..] == before + rest
  {
    assert rest == rest[..n] + rest[n..];
  }

  /** The loop at the end of Exec. */
  method Aggregate(outputs: seq<Output>) returns (stdout: Bytes, stderr: Bytes)
    ensures stdout == BytesOf(outputs, false) && stderr == BytesOf(outputs, true)
  {
    stdout, stderr := [], [];
    for i := 0 to |outputs|
      invariant stdout == BytesOf(outputs[..i], false) && stderr == BytesOf(outputs[..i], true)
    {
      assert outputs[..i + 1][..i] == outputs[..i];
      if outputs[i].isStderr {
        stderr := stderr + outputs[i].data;
      } else {
        stdout := stdout + outputs[i].data;
      }
    }
    assert outputs[..|outputs|] == outputs;
  }

  /** RunHandle.Wait and settle (sandbox/run.go:443-475), one call after the other. */
  class RunHandle {
    var waitCh: Option<Outcome>
    var errCh: Option<Outcome>
    var settled: Option<Outcome>
    ghost var posted: bool

    /** An outcome, once posted, is in one of the two channels or settled. */
    ghost predicate Valid()
      reads this
    {
      && (waitCh.Some? ==> errCh.None? && settled.None?)
      && (errCh.Some? ==> settled.None?)
      && (posted <==> waitCh.Some? || errCh.Some? || settled.Some?)
    }

    constructor ()
      ensures Valid() && !posted
    {
      waitCh, errCh, settled, posted := None, None, None, false;
    }

    /** The pump posts once in its lifetime. */
    method Post(outcome: Outcome)
      requires Valid() && !posted
      modifies this
      ensures Valid() && posted && settled.None?
      ensures if outcome.Exited? then waitCh == Some(outcome) else errCh == Some(outcome)
    {
      posted := true;
      if outcome.Exited? {
        waitCh := Some(outcome);
      } else {
        errCh := Some(outcome);
      }
    }

    /** The outcome there is, or None where the call would block: nothing has been posted yet. */
    method Wait() returns (outcome: Option<Outcome>)
      requires Valid()
      modifies this
      ensures Valid() && posted == old(posted)
      ensures outcome.Some? <==> posted
      ensures outcome.None? ==> unchanged(this)
      ensures old(settled).Some? ==> outcome == old(settled) && unchanged(this)
      ensures old(settled).None? && posted ==> outcome == settled && (outcome == old(waitCh) || outcome == old(errCh))
    {
      if settled.Some? {
        return settled;
      }
      if waitCh.Some? {
        outcome := waitCh;
        waitCh := None;
      } else if errCh.Some? {
        outcome := errCh;
        errCh := None;
      } else {
        return None;
      }
      Settle(outcome.value);
    }

    /** settle keeps the outcome that came first. */
    method Settle(outcome: Outcome)
      modifies this`settled
      ensures settled == if old(settled).Some? then old(settled) else Some(outcome)
    {
      if settled.None? {
        settled := Some(outcome);
      }
    }
  }
}
