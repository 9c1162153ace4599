/**
 * The event stream of a template build: the filter in templateBuildFromProto and
 * the polling loop waitForTemplateBuild (sandbox/template.go:329-357, 636-649).
 */
module BuildEvents {
  import opened Wrappers

  /** A protobuf event; Unrecognised is any kind this client does not know. */
  datatype RawEvent = RawLog(id: int) | RawProgress(id: int) | Unrecognised

  datatype Event = Log(id: int) | Progress(id: int)

  datatype BuildState = Unspecified | Pending | Building | Ready | Failed

  /** One answer of the server, and whether the caller gives up while waiting after it. */
  datatype Poll =
    | GetFailed(error: int)
    | Got(state: BuildState, raws: seq<RawEvent>, cancelled: Option<int>)

  datatype Outcome =
    | Built
    | BuildFailed
    | ServerError(error: int)
    | HandlerError(error: int)
    | GaveUp(error: int)

  // ----- Filter -----

  function Recognised(raws: seq<RawEvent>): seq<Event> {
    if raws == [] then []
    else
      Recognised(raws[..|raws| - 1]) +
      (match raws[|raws| - 1]
       case RawLog(id) => [Log(id)]
       case RawProgress(id) => [Progress(id)]
       case Unrecognised => [])
  }

  method EventsFromProto(raws: seq<RawEvent>) returns (events: seq<Event>)
    ensures events == Recognised(raws)
  {
    events := [];
    for i := 0 to |raws|
      invariant events == Recognised(raws[..i])
    {
      assert raws[..i + 1][..i] == raws[..i];
      match raws[i] {
        case RawLog(id) => events := events + [Log(id)];
        case RawProgress(id) => events := events + [Progress(id)];
        case Unrecognised =>
      }
    }
    assert raws[..|raws|] == raws;
  }

  lemma {:induction false} RecognisedConcat(a: seq<RawEvent>, b: seq<RawEvent>)
    ensures Recognised(a + b) == Recognised(a) + Recognised(b)
    decreases |b|
  {
    if b == [] {
      assert a + b == a;
    } else {
      assert (a + b)[..|a + b| - 1] == a + b[..|b| - 1];
      RecognisedConcat(a, b[..|b| - 1]);
    }
  }

  /** Dropping what is not recognised maps prefixes to prefixes. */
  lemma PrefixStaysPrefix(a: seq<RawEvent>, b: seq<RawEvent>)
    requires a <= b
    ensures Recognised(a) <= Recognised(b)
  {
    assert b == a + b[|a|..];
    RecognisedConcat(a, b[|a|..]);
  }

  /** What an event is for the handler; no answer for one of an unknown kind. */
  ghost predicate Means(raw: RawEvent, event: Event) {
    || (raw.RawLog? && event == Log(raw.id))
    || (raw.RawProgress? && event == Progress(raw.id))
  }

  /** How many of the first n raw events are of a known kind. */
  function Known(raws: seq<RawEvent>, n: nat): nat
    requires n <= |raws|
  {
    if n == 0 then 0 else Known(raws, n - 1) + (if raws[n - 1].Unrecognised? then 0 else 1)
  }

  /**
   * The filtered list by positions: it has one event for each raw event of a known
   * kind, and that event stands behind as many others as known ones came before it.
   */
  lemma {:induction false} RecognisedByPosition(raws: seq<RawEvent>, n: nat)
    requires n <= |raws|
    ensures |Recognised(raws[..n])| == Known(raws, n)
    ensures forall i | 0 <= i < n && !raws[i].Unrecognised? :: StandsAt(raws, i, Recognised(raws[..n]))
  {
    if n > 0 {
      RecognisedByPosition(raws, n - 1);
      OneRecognised(raws, n);
      OneMoreStands(raws, n, Recognised(raws[..n - 1]), Recognised(raws[..n]));
    }
  }

  /** The event of raws[i] stands behind as many others as known ones came before it. */
  ghost predicate StandsAt(raws: seq<RawEvent>, i: nat, events: seq<Event>)
    requires i < |raws|
  {
    Known(raws, i) < |events| && Means(raws[i], events[Known(raws, i)])
  }

  lemma {:induction false} OneMoreStands(raws: seq<RawEvent>, n: nat, before: seq<Event>, now: seq<Event>)
    requires 0 < n <= |raws| && before <= now && |before| == Known(raws, n - 1)
    requires forall i | 0 <= i < n - 1 && !raws[i].Unrecognised? :: StandsAt(raws, i, before)
    requires |now| == |before| + (if raws[n - 1].Unrecognised? then 0 else 1)
    requires !raws[n - 1].Unrecognised? ==> Means(raws[n - 1], now[|before|])
    ensures |now| == Known(raws, n)
    ensures forall i | 0 <= i < n && !raws[i].Unrecognised? :: StandsAt(raws, i, now)
  {
    forall i | 0 <= i < n && !raws[i].Unrecognised? ensures StandsAt(raws, i, now) {
      if i < n - 1 {
        assert StandsAt(raws, i, before);
        assert now[Known(raws, i)] == before[Known(raws, i)];
      }
    }
  }

  lemma {:induction false} OneRecognised(raws: seq<RawEvent>, n: nat)
    requires 0 < n <= |raws|
    ensures var before, now := Recognised(raws[..n - 1]), Recognised(raws[..n]);
            && before <= now && |now| == |before| + (if raws[n - 1].Unrecognised? then 0 else 1)
            && (!raws[n - 1].Unrecognised? ==> Means(raws[n - 1], now[|before|]))
  {
    assert raws[..n][..n - 1] == raws[..n - 1];
  }

  // ----- Polling -----

  /** The server only ever appends to the event list of a build. */
  ghost predicate Appending(polls: seq<Poll>) {
    forall i, j :: 0 <= i < j < |polls| && polls[i].Got? && polls[j].Got? ==> polls[i].raws <= polls[j].raws
  }

  /** What happened up to and including poll n - 1, seen from outside the loop. */
  ghost predicate Exact(polls: seq<Poll>, n: nat, handed: seq<Event>)
    requires n <= |polls|
  {
    if n == 0 then handed == []
    else polls[n - 1].Got? && handed == Recognised(polls[n - 1].raws)
  }

  /** The events handed over are those of the last list received, once each and in order, or a first part of them. */
  ghost predicate ExactlyOnce(polls: seq<Poll>, n: nat, handed: seq<Event>, outcome: Option<Outcome>)
    requires n <= |polls|
  {
    if outcome.None? then Exact(polls, n, handed)
    else
      && n > 0
      && match outcome.value
         case HandlerError(_) => polls[n - 1].Got? && handed <= Recognised(polls[n - 1].raws)
         case ServerError(_) => Exact(polls, n - 1, handed)
         case _ => Exact(polls, n, handed)
  }

  lemma UnseenCompletes(polls: seq<Poll>, n: nat, handed: seq<Event>)
    requires Appending(polls) && n < |polls| && polls[n].Got? && Exact(polls, n, handed)
    ensures handed + Unseen(handed, Recognised(polls[n].raws)) == Recognised(polls[n].raws)
  {
    if n > 0 {
      PrefixStaysPrefix(polls[n - 1].raws, polls[n].raws);
    }
  }

  /** A poll after which the loop asks again, handlers permitting. */
  predicate GoesOn(p: Poll) {
    p.Got? && !p.state.Ready? && !p.state.Failed? && p.cancelled.None?
  }

  predicate Undecided(polls: seq<Poll>, n: nat)
    requires n <= |polls|
  {
    forall i | 0 <= i < n :: GoesOn(polls[i])
  }

  /**
   * waitForTemplateBuild with a handler that fails its k-th call as `fails` says.
   * `handed` are the events it was called with, `n` the number of polls, and no
   * outcome means that the loop would ask again.
   */
  method WaitForTemplateBuild(polls: seq<Poll>, fails: nat -> Option<int>)
    returns (handed: seq<Event>, n: nat, outcome: Option<Outcome>)
    ensures n <= |polls| && (outcome.None? ==> n == |polls|)
    ensures outcome.Some? ==> n > 0
    ensures Undecided(polls, if outcome.Some? then n - 1 else n)
    ensures outcome == Some(Built) ==> polls[n - 1].Got? && polls[n - 1].state.Ready?
    ensures outcome == Some(BuildFailed) ==> polls[n - 1].Got? && polls[n - 1].state.Failed?
    ensures forall e :: outcome == Some(ServerError(e)) ==> polls[n - 1] == GetFailed(e)
    ensures forall e :: outcome == Some(GaveUp(e)) ==>
              && polls[n - 1].Got? && polls[n - 1].cancelled == Some(e)
              && !polls[n - 1].state.Ready? && !polls[n - 1].state.Failed?
    ensures outcome.Some? && outcome.value.HandlerError? ==> polls[n - 1].Got?
    // The handler hears of each event once, in order, until it fails.
    ensures forall k: nat :: k + 1 < |handed| ==> fails(k).None?
    ensures forall e :: outcome == Some(HandlerError(e)) ==> handed != [] && fails(|handed| - 1) == Some(e)
    ensures !(outcome.Some? && outcome.value.HandlerError?) ==> forall k: nat :: k < |handed| ==> fails(k).None?
    ensures Appending(polls) ==> ExactlyOnce(polls, n, handed, outcome)
  {
    handed, n := [], 0;
    while n < |polls|
      invariant n <= |polls|
      invariant Undecided(polls, n)
      invariant forall k: nat :: k < |handed| ==> fails(k).None?
      invariant Appending(polls) ==> Exact(polls, n, handed)
    {
      var p := polls[n];
      if p.GetFailed? {
        return handed, n + 1, Some(ServerError(p.error));
      }
      var events := EventsFromProto(p.raws);
      if Appending(polls) {
        UnseenCompletes(polls, n, handed);
      }
      n := n + 1;
      var error;
      handed, error := Deliver(handed, events, fails);
      if error.Some? {
        return handed, n, Some(HandlerError(error.value));
      }
      if p.state.Ready? {
        return handed, n, Some(Built);
      }
      if p.state.Failed? {
        return handed, n, Some(BuildFailed);
      }
      if p.cancelled.Some? {
        return handed, n, Some(GaveUp(p.cancelled.value));
      }
    }
    return handed, n, None;
  }

  function Unseen(before: seq<Event>, events: seq<Event>): seq<Event> {
    if |before| < |events| then events[|before|..] else []
  }

  /** The inner loop: as many events as were handed over before are skipped. */
  method Deliver(before: seq<Event>, events: seq<Event>, fails: nat -> Option<int>)
    returns (handed: seq<Event>, error: Option<int>)
    requires forall k: nat :: k < |before| ==> fails(k).None?
    ensures forall k: nat :: k + 1 < |handed| ==> fails(k).None?
    ensures error.None? ==> handed == before + Unseen(before, events)
    ensures error.None? ==> forall k: nat :: k < |handed| ==> fails(k).None?
    ensures error.Some? ==> before < handed <= before + Unseen(before, events) && error == fails(|handed| - 1)
  {
    handed, error := before, None;
    var unseen, i := Unseen(before, events), 0;
    while |handed| < |events|
      invariant i <= |unseen| && handed == before + unseen[..i]
      invariant forall k: nat :: k < |handed| ==> fails(k).None?
    {
      handed := handed + [events[|handed|]];
      i := i + 1;
      if fails(|handed| - 1).Some? {
        error := fails(|handed| - 1);
        return;
      }
    }
  }
}
