/**
 The websocket client under a peer: a reader takes messages off the connection into a bounded
 buffer, the upstream goroutine takes them out again and hands those it publishes over to the
 feed the peer listens to. The reader holds the client's lock while it waits for room in the
 buffer. Stopping the connection takes that lock, hands the reason over to whoever waits for it,
 and closes buffer and connection; closing the client closes the feed. Neither close looks at
 what the two goroutines have in hand, so one of them may come to send on a closed channel.

 A message that is read while a stop closes buffer and connection counts as read before.
 */
module WebsocketFeed {

  const READ_CAPACITY: nat := 10

  datatype Reader =
    | NIdle                    // not spawned
    | NRead                    // reading from the connection
    | NGot                     // has read a message, wants the lock
    | NPut                     // holds the lock, sending the message to the buffer
    | NDone

  datatype Upstream =
    | UIdle                    // not spawned
    | USelect                  // waiting for a message in the buffer, or for the end of the connection
    | UHand                    // sending a message on the feed
    | UDone

  datatype Wire =
    | Up
    | Stopping(waiter: bool)   // someone holds the lock in stop and hands the reason over; one of its own waits for it
    | Down                     // buffer and connection are closed

  datatype Feed = Feed(
    connected: bool, closed: bool, pending: nat, buffer: nat, wire: Wire, reader: Reader, upstream: Upstream)

  /** Who takes the reason of a stop. */
  datatype Taker = OwnWaiter | TheUpstream | TheCloser

  datatype FeedStep =
    | Connect
    | Drop                     // the client takes the connection for lost
    | BeginStop(waiter: bool)  // stop gets the lock: a close, a failed read or write, or missing heartbeats
    | GiveUp                   // the one waiting for the stop times out
    | HandReason(taker: Taker)
    | Read | LockRead | Put | EndRead
    | Take | Skip | EndUpstream
    | HandOver                 // the peer receives from the feed
    | CloseFeed

  predicate Fresh(f: Feed) {
    !f.connected && !f.closed && f.buffer == 0 && f.wire.Up? && f.reader.NIdle? && f.upstream.UIdle?
  }

  predicate Can(f: Feed, step: FeedStep) {
    match step
    case Connect => f.upstream.UIdle?
    case Drop => f.connected
    case BeginStop(_) => f.wire.Up? && !f.upstream.UIdle? && !f.reader.NPut?
    case GiveUp => f.wire == Stopping(true)
    case HandReason(taker) =>
      f.wire.Stopping? && (taker.OwnWaiter? ==> f.wire.waiter) && (taker.TheUpstream? ==> f.upstream.USelect?)
    case Read => f.reader.NRead? && !f.wire.Down? && f.pending > 0
    case LockRead => f.reader.NGot? && !f.wire.Stopping?
    case Put => f.reader.NPut? && f.buffer < READ_CAPACITY
    case EndRead => f.reader.NRead? && !f.wire.Up?
    case Take => f.upstream.USelect? && f.buffer > 0
    case Skip => f.upstream.USelect? && f.buffer > 0
    case EndUpstream => f.upstream.USelect? && f.wire.Down?
    case HandOver => f.upstream.UHand? && !f.closed
    case CloseFeed => true
  }

  function After(f: Feed, step: FeedStep): (r: Feed)
    requires Can(f, step)
  {
    match step
    case Connect => f.(connected := true, reader := NRead, upstream := USelect)
    case Drop => f.(connected := false)
    case BeginStop(waiter) => f.(wire := Stopping(waiter))
    case GiveUp => f.(wire := Stopping(false))
    case HandReason(taker) => f.(wire := Down, upstream := if taker.TheUpstream? then UDone else f.upstream)
    case Read => f.(pending := f.pending - 1, reader := NGot)
    case LockRead => f.(reader := NPut)
    case Put => f.(buffer := f.buffer + 1, reader := NRead)
    case EndRead => f.(reader := NDone)
    case Take => f.(buffer := f.buffer - 1, upstream := UHand)
    case Skip => f.(buffer := f.buffer - 1)
    case EndUpstream => f.(upstream := UDone)
    case HandOver => f.(upstream := USelect)
    case CloseFeed => f.(closed := true)
  }

  /** Steps the client and its connection take by themselves. */
  predicate Own(step: FeedStep) {
    !step.Connect? && !step.HandOver? && !step.CloseFeed? && step != HandReason(TheCloser)
  }

  /** Steps that only happen when something happens to the connection. */
  predicate FromOutside(step: FeedStep) {
    step.Connect? || step.Drop? || step.BeginStop? || step.Read?
  }

  predicate FeedInv(f: Feed) {
    && f.buffer <= READ_CAPACITY
    && (f.reader.NIdle? <==> f.upstream.UIdle?)
    && (f.upstream.UIdle? ==> f.wire.Up?)
    && (f.upstream.UDone? ==> f.wire.Down?)
    && (f.reader.NPut? ==> !f.wire.Stopping?)
  }

  lemma StepFeedInv(f: Feed, step: FeedStep)
    requires FeedInv(f) && Can(f, step)
    ensures FeedInv(After(f, step))
  {
  }

  // ----- Sends on closed channels -----

  /** One of the two goroutines sends, or is blocked sending, on a channel that is closed. */
  predicate SendsOnClosed(f: Feed) {
    (f.closed && f.upstream.UHand?) || (f.wire.Down? && f.reader.NPut?)
  }

  /** A message is still on its way into the buffer. */
  predicate Flowing(f: Feed) {
    !f.wire.Down? && (f.reader.NGot? || f.reader.NPut? || (f.reader.NRead? && f.pending > 0))
  }

  /** The upstream goroutine has a message in hand, or may get one. */
  predicate ReadAhead(f: Feed) {
    f.upstream.UHand? || (f.upstream.USelect? && (f.buffer > 0 || Flowing(f)))
  }

  /** A close under the hands of a goroutine: of the feed under messages read ahead, or of the buffer under a message just read. */
  predicate Fatal(f: Feed, step: FeedStep) {
    (step.CloseFeed? && ReadAhead(f)) || (step.HandReason? && f.reader.NGot?)
  }

  /** What is closed has no sender left. */
  predicate Sound(f: Feed) {
    (f.closed ==> !ReadAhead(f)) && (f.wire.Down? ==> !f.reader.NGot? && !f.reader.NPut?)
  }

  lemma SoundIsQuiet(f: Feed)
    requires Sound(f)
    ensures !SendsOnClosed(f)
  {
  }

  lemma StepSound(f: Feed, step: FeedStep)
    requires FeedInv(f) && Sound(f) && Can(f, step) && !Fatal(f, step)
    requires step.Connect? ==> !f.closed
    ensures Sound(After(f, step))
  {
  }

  /** An upstream goroutine that takes the reason of a stop is done, so closing the feed after it is not fatal. */
  lemma ReasonEndsUpstream(f: Feed)
    requires Can(f, HandReason(TheUpstream))
    ensures !ReadAhead(After(f, HandReason(TheUpstream))) && !Fatal(After(f, HandReason(TheUpstream)), CloseFeed)
  {
  }

  /** The next step towards a send on the closed feed, or on the closed buffer. */
  function Doom(f: Feed): (step: FeedStep)
    requires (f.closed && ReadAhead(f)) || (f.wire.Down? && f.reader.NGot?)
    requires !SendsOnClosed(f)
  {
    if f.wire.Down? && f.reader.NGot? then LockRead
    else if f.buffer > 0 then Take
    else if f.reader.NPut? then Put
    else if f.reader.NRead? then Read
    else if f.wire.Stopping? then HandReason(TheUpstream)
    else LockRead
  }

  predicate Doomed(f: Feed) {
    FeedInv(f) && ((f.closed && ReadAhead(f)) || (f.wire.Down? && f.reader.NGot?))
  }

  /** How many steps are left until then, at most. */
  function StepsToDoom(f: Feed): (n: nat) {
    if SendsOnClosed(f) then 0
    else if f.wire.Down? && f.reader.NGot? then 1
    else if f.buffer > 0 then 1
    else if f.reader.NPut? then 2
    else if f.reader.NGot? then 3
    else 4
  }

  lemma DoomAdvances(f: Feed)
    requires Doomed(f) && !SendsOnClosed(f)
    ensures Own(Doom(f)) && Can(f, Doom(f))
    ensures SendsOnClosed(After(f, Doom(f))) || (Doomed(After(f, Doom(f))) && StepsToDoom(After(f, Doom(f))) < StepsToDoom(f))
  {
  }

  lemma FatalDooms(f: Feed, step: FeedStep)
    requires FeedInv(f) && Can(f, step) && Fatal(f, step)
    ensures Doomed(After(f, step))
  {
  }
}
