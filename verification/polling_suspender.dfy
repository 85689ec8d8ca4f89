/** `PollingSuspender`: the pause gate of the intent-status poller. It holds
    at most one rendezvous channel (`Channel(0)`); the polling loop waits on
    it at one checkpoint, and `resume` hands it a signal only if the loop is
    already waiting there. Channels are named by numbers handed out in
    increasing order, so every `suspend` installs a channel never seen
    before. */
module Suspension {
  import opened Wrappers
  import opened Seqs

  datatype Suspender = Suspender(channel: Option<nat>, nextChannel: nat)

  /** Every channel installed so far has a number below `nextChannel`. */
  predicate Valid(s: Suspender)
  {
    s.channel.Some? ==> s.channel.value < s.nextChannel
  }

  /** The suspender of a new poller: no channel. */
  const Initial: Suspender := Suspender(None, 0)

  /** What the loop does at its checkpoint. */
  datatype Gate = Proceed | Block(channel: nat)

  /** `waitIfSuspended`: passes at once when there is no channel, and
      otherwise blocks on the current channel. */
  function WaitIfSuspended(s: Suspender): (g: Gate)
    ensures g.Proceed? <==> s.channel.None?
    ensures g.Block? ==> s.channel == Some(g.channel)
  {
    match s.channel
    case None => Proceed
    case Some(c) => Block(c)
  }

  /** The end of a completed wait: the channel field is cleared, whichever
      channel it holds by then. */
  function CompleteWait(s: Suspender): (r: Suspender)
    ensures Valid(s) ==> Valid(r)
    ensures r.channel.None? && r.nextChannel == s.nextChannel
  {
    s.(channel := None)
  }

  /** `suspend`: installs a fresh channel, replacing any earlier one. */
  function Suspend(s: Suspender): (r: Suspender)
    ensures Valid(r)
    ensures r.channel.Some? && r.nextChannel > s.nextChannel
    ensures Valid(s) ==> r.channel != s.channel
    ensures forall c :: c < s.nextChannel ==> r.channel != Some(c)
  {
    Suspender(Some(s.nextChannel), s.nextChannel + 1)
  }

  /** `resume` (a `trySend` on the rendezvous channel): `waitingOn[i]` is the
      channel waiter `i` is blocked on, if any. The signal goes to the first
      waiter blocked on the current channel; with no channel, or nobody
      waiting on it, the signal is dropped and -1 is returned. */
  function ResumeTarget(s: Suspender, waitingOn: seq<Option<nat>>): (k: int)
    ensures -1 <= k < |waitingOn|
    ensures k == -1 <==> s.channel.None? || forall i :: 0 <= i < |waitingOn| ==> waitingOn[i] != s.channel
    ensures k != -1 ==>
      && s.channel.Some?
      && waitingOn[k] == s.channel
      && forall i :: 0 <= i < k ==> waitingOn[i] != s.channel
  {
    match s.channel
    case None => -1
    case Some(c) =>
      var p := (w: Option<nat>) => w == Some(c);
      var k := IndexOfFirst(waitingOn, p);
      assert k != -1 ==> IsFirstIndex(waitingOn, p, k);
      k
  }
}
