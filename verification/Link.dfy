/** `client/src/core/link.ts`: the state machine, and what it promises over every run
    of openings, frames, outages and retries. */
module Link {
  import opened OrderedMaps

  /** The wire version and schema hash this build was generated with. */
  datatype Build = Build(version: nat, schema: string)

  datatype Error = Error(code: string, cause: string)

  const WIRE_MISMATCH := "E_WIRE_MISMATCH"

  datatype Frame =
    | Welcome(version: nat, schema: string, city: Option<string>)
    | Event(record: string)
    | Answered(id: nat, refusal: Option<Error>)
    | Delta(piece: string)
    | Log(line: string)
    | Refused(error: Error)
    | Lagged(first: nat, last: nat)
    | Output(piece: string)
    | Monitor(sample: string)

  datatype State =
    | Idle
    | Opening
    | Handshaking
    | Live(city: Option<string>)
    | Backoff(attempt: nat)
    | Barred(error: Error)
    | Closed

  datatype Happened =
    | Opened(credential: Option<string>)
    | Received(frame: Frame)
    | Undecodable
    | Ended
    | WaitElapsed
    | Retry
    | Closing(mode: string)

  datatype Action =
    | Nothing
    | Open
    | Hello(credential: Option<string>)
    | Greet(welcome: Frame)
    | Deliver(frame: Frame)
    | Wait(ms: nat)
    | Report(error: Error)

  datatype Link = Link(state: State, closing: Option<string>, failures: nat)

  const NEW := Link(Idle, None, 0)

  predicate IsStopped(link: Link) {
    link.state.Barred? || link.state.Closed?
  }

  const LADDER_MS: seq<nat> := [250, 500, 1000, 2000, 5000, 10000]

  /** The rung of the ladder for an attempt; past its end the top one. */
  function BackoffMs(attempt: nat): nat {
    LADDER_MS[if attempt < |LADDER_MS| - 1 then attempt else |LADDER_MS| - 1]
  }

  function Connect(link: Link): (Link, Action) {
    (link.(state := Opening), Open)
  }

  function Refuse(link: Link, error: Error): (Link, Action) {
    (link.(state := Barred(error)), Report(error))
  }

  function Retreat(link: Link): (Link, Action) {
    (link.(state := Backoff(link.failures), failures := link.failures + 1), Wait(BackoffMs(link.failures)))
  }

  function Mismatch(cause: string): Error {
    Error(WIRE_MISMATCH, cause)
  }

  function Welcomed(build: Build, link: Link, welcome: Frame): (Link, Action)
    requires welcome.Welcome?
  {
    if welcome.version != build.version || welcome.schema != build.schema then
      Refuse(link, Mismatch("wire_version_mismatch"))
    else (link.(state := Live(welcome.city)), Greet(welcome))
  }

  function OnFrame(build: Build, source: Link, frame: Frame): (Link, Action) {
    var link := if source.failures == 0 || !source.state.Live? then source else source.(failures := 0);
    if link.state.Handshaking? then
      match frame
      case Welcome(_, _, _) => Welcomed(build, link, frame)
      case Refused(error) => Refuse(link, error)
      case _ => Refuse(link, Mismatch("wire_out_of_order"))
    else if !link.state.Live? then (link, Nothing)
    else
      match frame
      case Welcome(_, _, _) => Refuse(link, Mismatch("wire_out_of_order"))
      case Answered(_, refusal) =>
        if refusal.Some? && refusal.value.code == WIRE_MISMATCH then Refuse(link, refusal.value)
        else (link, Deliver(frame))
      case Refused(error) =>
        if error.code == WIRE_MISMATCH then Refuse(link, error) else (link, Report(error))
      case _ => (link, Deliver(frame))
  }

  /** One event: the next state, and the one action it asks for. */
  function Advance(build: Build, link: Link, e: Happened): (Link, Action) {
    if IsStopped(link) then
      if e.Retry? then Connect(link.(closing := None, failures := 0)) else (link, Nothing)
    else
      match e
      case Opened(credential) =>
        if !link.state.Opening? then (link, Nothing) else (link.(state := Handshaking), Hello(credential))
      case Received(frame) => OnFrame(build, link, frame)
      case Undecodable => Refuse(link, Mismatch("wire_frame_undecodable"))
      case Ended => if link.closing.None? then Retreat(link) else (link.(state := Closed), Nothing)
      case Closing(mode) => (link.(closing := Some(mode)), Nothing)
      case WaitElapsed => if link.state.Backoff? then Connect(link) else (link, Nothing)
      case Retry => Connect(link.(failures := 0))
  }

  // ------------------------------------------------------------ runs

  /** The link once `es` have happened to it. */
  function After(build: Build, link: Link, es: seq<Happened>): Link {
    if es == [] then link else Advance(build, After(build, link, es[..|es| - 1]), es[|es| - 1]).0
  }

  /** What was done at event `i` of a run. */
  function Done(build: Build, link: Link, es: seq<Happened>, i: nat): Action
    requires i < |es|
  {
    Advance(build, After(build, link, es[..i]), es[i]).1
  }

  lemma AfterNext(build: Build, link: Link, es: seq<Happened>, i: nat)
    requires i < |es|
    ensures After(build, link, es[..i + 1]) == Advance(build, After(build, link, es[..i]), es[i]).0
  {
    assert es[..i + 1][..i] == es[..i];
  }

  // ------------------------------------------------------------ nothing before the welcome

  predicate Fits(build: Build, e: Happened) {
    e.Received? && e.frame.Welcome? && e.frame.version == build.version && e.frame.schema == build.schema
  }

  /** Event `w` was this build's own welcome, and the link was not opened again nor
      lost from then to event `i`. */
  ghost predicate GreetedAt(build: Build, es: seq<Happened>, w: nat, i: nat) {
    && w < i <= |es|
    && Fits(build, es[w]) && Done(build, NEW, es, w) == Greet(es[w].frame)
    && forall k :: w < k < i ==>
      !Done(build, NEW, es, k).Open? && !Done(build, NEW, es, k).Wait? && es[k] != Ended
  }

  lemma LiveStep(build: Build, link: Link, e: Happened)
    requires Advance(build, link, e).0.state.Live?
    ensures var done := Advance(build, link, e).1;
            if link.state.Live? then !done.Open? && !done.Wait? && e != Ended
            else Fits(build, e) && done == Greet(e.frame)
  {}

  lemma {:induction false} LiveWasGreeted(build: Build, es: seq<Happened>, i: nat) returns (w: nat)
    requires i <= |es| && After(build, NEW, es[..i]).state.Live?
    ensures GreetedAt(build, es, w, i)
    decreases i
  {
    hide Advance, Fits;
    assert i > 0;
    var before := After(build, NEW, es[..i - 1]);
    AfterNext(build, NEW, es, i - 1);
    LiveStep(build, before, es[i - 1]);
    if before.state.Live? {
      w := LiveWasGreeted(build, es, i - 1);
    } else {
      w := i - 1;
    }
  }

  /** In every run a frame is passed on only on a link that, since it was last opened,
      was welcomed with this build's own version and schema. */
  lemma DeliveredWasGreeted(build: Build, es: seq<Happened>, i: nat) returns (w: nat)
    requires i < |es| && Done(build, NEW, es, i).Deliver?
    ensures es[i].Received? && Done(build, NEW, es, i) == Deliver(es[i].frame)
    ensures GreetedAt(build, es, w, i)
  {
    w := LiveWasGreeted(build, es, i);
  }

  // ------------------------------------------------------------ a stopped link stays stopped

  /** From the event that refuses it, or that ends a socket a person asked to close,
      the link does nothing and opens nothing until a retry. */
  lemma {:induction false} StoppedUntilRetry(build: Build, link: Link, es: seq<Happened>)
    requires IsStopped(link) && forall e :: e in es ==> !e.Retry?
    ensures After(build, link, es) == link
    ensures forall i :: 0 <= i < |es| ==> Done(build, link, es, i) == Nothing
    decreases |es|
  {
    if es != [] {
      var n := |es| - 1;
      assert forall e :: e in es[..n] ==> e in es;
      StoppedUntilRetry(build, link, es[..n]);
      forall i | 0 <= i < |es| ensures Done(build, link, es, i) == Nothing {
        if i < n {
          assert Done(build, link, es[..n], i) == Nothing;
          assert es[..n][..i] == es[..i];
        }
      }
    }
  }

  /** A frame no link that is live may get: a second welcome, or word that the wire is
      not this build's. */
  predicate OfAnotherWire(frame: Frame) {
    match frame
    case Welcome(_, _, _) => true
    case Answered(_, refusal) => refusal.Some? && refusal.value.code == WIRE_MISMATCH
    case Refused(error) => error.code == WIRE_MISMATCH
    case _ => false
  }

  /** What stops a link that is going: anything but this build's welcome where one is
      due, a second welcome or word of another wire once live, a frame that does not
      read, and the socket's end after a close was asked for. */
  predicate Stops(build: Build, link: Link, e: Happened) {
    match e
    case Received(frame) =>
      if link.state.Handshaking? then !Fits(build, e) else link.state.Live? && OfAnotherWire(frame)
    case Undecodable => true
    case Ended => link.closing.Some?
    case _ => false
  }

  lemma WhatStops(build: Build, link: Link, e: Happened)
    requires !IsStopped(link)
    ensures IsStopped(Advance(build, link, e).0) <==> Stops(build, link, e)
  {}

  /** Event `k` stopped a link that was going, and nobody retried since. */
  ghost predicate StoppedAt(build: Build, es: seq<Happened>, k: int) {
    && 0 <= k < |es|
    && !IsStopped(After(build, NEW, es[..k])) && Stops(build, After(build, NEW, es[..k]), es[k])
    && forall j :: k < j < |es| ==> !es[j].Retry?
  }

  /** In every run a link is stopped exactly when one of those things stopped it and no
      retry came after. */
  lemma {:induction false} StoppedIff(build: Build, es: seq<Happened>)
    ensures IsStopped(After(build, NEW, es)) <==> exists k :: StoppedAt(build, es, k)
    decreases |es|
  {
    if es != [] {
      hide IsStopped, Stops;
      var n := |es| - 1;
      var before := es[..n];
      assert es == before + [es[n]];
      StoppedIff(build, before);
      RetryGoes(build, After(build, NEW, before), es[n]);
      forall k | 0 <= k < n ensures StoppedAt(build, es, k) <==> StoppedAt(build, before, k) && !es[n].Retry? {
        assert es[..k] == before[..k];
      }
      assert StoppedAt(build, es, n) <==> !IsStopped(After(build, NEW, before)) && Stops(build, After(build, NEW, before), es[n]);
      assert forall k :: StoppedAt(build, es, k) ==> 0 <= k <= n;
    } else {
      assert !IsStopped(NEW);
    }
  }

  lemma RetryGoes(build: Build, link: Link, e: Happened)
    ensures IsStopped(Advance(build, link, e).0) <==>
            if IsStopped(link) then !e.Retry? else Stops(build, link, e)
  {
    if !IsStopped(link) { WhatStops(build, link, e); }
  }

  // ------------------------------------------------------------ waits climb

  /** A wait starts again from the bottom only when a frame comes in while live, or a
      person retries. */
  predicate Resets(link: Link, e: Happened) {
    e.Retry? || (e.Received? && link.state.Live?)
  }

  /** How many waits there have been since the last reset. */
  function Outages(build: Build, es: seq<Happened>): nat {
    if es == [] then 0
    else
      var n := |es| - 1;
      if Resets(After(build, NEW, es[..n]), es[n]) then 0
      else Outages(build, es[..n]) + (if Done(build, NEW, es, n).Wait? then 1 else 0)
  }

  lemma {:induction false} FailuresAreOutages(build: Build, es: seq<Happened>)
    ensures After(build, NEW, es).failures == Outages(build, es)
    decreases |es|
  {
    if es != [] { FailuresAreOutages(build, es[..|es| - 1]); }
  }

  /** Every wait is the rung of the ladder its place since the last reset names. */
  lemma WaitIsRung(build: Build, es: seq<Happened>, i: nat)
    requires i < |es| && Done(build, NEW, es, i).Wait?
    ensures Done(build, NEW, es, i) == Wait(BackoffMs(Outages(build, es[..i])))
  {
    FailuresAreOutages(build, es[..i]);
  }

  lemma {:induction false} OutagesClimb(build: Build, es: seq<Happened>, i: nat, j: nat)
    requires i <= j <= |es|
    requires forall k :: i <= k < j ==> !Resets(After(build, NEW, es[..k]), es[k])
    ensures Outages(build, es[..i]) <= Outages(build, es[..j])
    decreases j
  {
    hide After, Resets, Done;
    if i < j {
      OutagesClimb(build, es, i, j - 1);
      assert es[..j][..j - 1] == es[..j - 1];
      assert es[..j][j - 1] == es[j - 1];
    }
  }

  lemma RungsClimb(a: nat, b: nat)
    requires a <= b
    ensures BackoffMs(a) <= BackoffMs(b) <= 10000
  {}

  /** Successive waits never fall until a frame comes in while live or a person
      retries. */
  lemma WaitsNeverFall(build: Build, es: seq<Happened>, i: nat, j: nat)
    requires i <= j < |es|
    requires Done(build, NEW, es, i).Wait? && Done(build, NEW, es, j).Wait?
    requires forall k :: i <= k < j ==> !Resets(After(build, NEW, es[..k]), es[k])
    ensures Done(build, NEW, es, i).ms <= Done(build, NEW, es, j).ms
  {
    WaitIsRung(build, es, i);
    WaitIsRung(build, es, j);
    OutagesClimb(build, es, i, j);
    RungsClimb(Outages(build, es[..i]), Outages(build, es[..j]));
  }
}
