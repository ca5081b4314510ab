/** When a polling loop of hwio.c ends: told from the frames the NIC has and from the schedule of its
    bursts alone. */
module HwWait {
  import opened Packets

  /** What one turn of a polling loop meets: the frames the NIC has ready, and what the deadline
      check says if it is reached. */
  datatype Poll = Poll(take: nat, expired: bool)

  const BURST := 32

  function Min(a: nat, b: nat): nat { if a < b then a else b }

  /** How many of `avail` frames the first `k` bursts take. */
  function TakenBy(avail: nat, polls: seq<Poll>, k: nat): (t: nat)
    requires k <= |polls|
    ensures t <= avail
  {
    if k == 0 then 0
    else
      var t := TakenBy(avail, polls, k - 1);
      t + Min(Min(polls[k - 1].take, BURST), avail - t)
  }

  /** Burst `k` is empty. */
  predicate Empty(avail: nat, polls: seq<Poll>, k: nat)
    requires k < |polls|
  {
    TakenBy(avail, polls, k + 1) == TakenBy(avail, polls, k)
  }

  /** How many of the first `k` bursts are empty. */
  function Empties(avail: nat, polls: seq<Poll>, k: nat): nat
    requires k <= |polls|
  {
    if k == 0 then 0 else Empties(avail, polls, k - 1) + (if Empty(avail, polls, k - 1) then 1 else 0)
  }

  /** How many empty bursts in a row end before burst `k`. */
  function EmptyRow(avail: nat, polls: seq<Poll>, k: nat): nat
    requires k <= |polls|
  {
    if k == 0 || !Empty(avail, polls, k - 1) then 0 else EmptyRow(avail, polls, k - 1) + 1
  }

  lemma {:induction false} TakenGrows(avail: nat, polls: seq<Poll>, j: nat, k: nat)
    requires j <= k <= |polls|
    ensures TakenBy(avail, polls, j) <= TakenBy(avail, polls, k)
    decreases k
  {
    if j < k {
      TakenGrows(avail, polls, j, k - 1);
    }
  }

  /** Bursts that may take something take at least one frame each while there are any. */
  lemma {:induction false} TakesOneEach(avail: nat, polls: seq<Poll>, k: nat)
    requires k <= |polls| && forall i | 0 <= i < k :: polls[i].take >= 1
    ensures TakenBy(avail, polls, k) >= Min(k, avail)
    decreases k
  {
    if k != 0 {
      TakesOneEach(avail, polls, k - 1);
    }
  }

  // --- hw_reqresp_once and hw_reqresp_once_mc ---

  /** The deadline is looked at after a burst with frames, and after every 64th empty one; here it has
      passed. */
  predicate GivesUp(avail: nat, polls: seq<Poll>, k: nat)
    requires k < |polls|
  {
    (!Empty(avail, polls, k) || Empties(avail, polls, k + 1) % 64 == 0) && polls[k].expired
  }

  /** The wait has used `used` bursts, and has met the reply or its end, if at all, in the last. */
  ghost predicate WaitSoFar(rx: seq<Packet>, q: Query, polls: seq<Poll>, used: nat, taken: nat, replied: bool, expired: bool)
  {
    && used <= |polls| && taken == TakenBy(|rx|, polls, used)
    && (forall k | 0 <= k < used - 1 :: !GivesUp(|rx|, polls, k))
    && (used > 0 ==> TakenBy(|rx|, polls, used - 1) <= FirstMatch(rx, q))
    && (replied <==> FirstMatch(rx, q) < taken)
    && (expired <==> !replied && used > 0 && GivesUp(|rx|, polls, used - 1))
  }

  /** One more burst of `n` frames, after `e` empty ones since the deadline was last looked at for them. */
  lemma WaitMore(rx: seq<Packet>, q: Query, polls: seq<Poll>, p: nat, t: nat, n: nat, e: nat, replied: bool, expired: bool)
    requires p < |polls| && WaitSoFar(rx, q, polls, p, t, false, false)
    requires n == Min(Min(polls[p].take, BURST), |rx| - t) && e == Empties(|rx|, polls, p) % 64
    requires replied <==> FirstMatch(rx, q) < t + n
    requires expired <==> !replied && polls[p].expired && (n != 0 || e + 1 == 64)
    ensures WaitSoFar(rx, q, polls, p + 1, t + n, replied, expired)
    ensures Empties(|rx|, polls, p + 1) % 64 == if n != 0 then e else if e + 1 == 64 then 0 else e + 1
  {
    hide FirstMatch;
  }

  lemma NoWaitYet(rx: seq<Packet>, q: Query, polls: seq<Poll>)
    ensures WaitSoFar(rx, q, polls, 0, 0, false, false) && Empties(|rx|, polls, 0) == 0
  {
  }

  /** The reply is there before the deadline is found to have passed. */
  ghost predicate ReplyInTime(rx: seq<Packet>, q: Query, polls: seq<Poll>)
  {
    exists k | 0 <= k < |polls| :: Reached(rx, q, polls, k) && forall j | 0 <= j < k :: !GivesUp(|rx|, polls, j)
  }

  predicate Reached(rx: seq<Packet>, q: Query, polls: seq<Poll>, k: nat)
    requires k < |polls|
  {
    FirstMatch(rx, q) < TakenBy(|rx|, polls, k + 1)
  }

  /** The deadline is found to have passed before the reply is there. */
  ghost predicate TooLate(rx: seq<Packet>, q: Query, polls: seq<Poll>)
  {
    exists k | 0 <= k < |polls| :: GivesUp(|rx|, polls, k) && !Reached(rx, q, polls, k)
  }

  /** A wait that is over has its result from the schedule and the NIC alone. */
  lemma WaitDecided(rx: seq<Packet>, q: Query, polls: seq<Poll>, used: nat, taken: nat, replied: bool, expired: bool)
    requires WaitSoFar(rx, q, polls, used, taken, replied, expired) && (replied || expired || used == |polls|)
    ensures replied <==> ReplyInTime(rx, q, polls)
    ensures expired <==> TooLate(rx, q, polls)
  {
    hide GivesUp;
    forall k | 0 <= k < |polls| ensures k < used - 1 ==> !Reached(rx, q, polls, k) {
      if k < used - 1 {
        TakenGrows(|rx|, polls, k + 1, used - 1);
      }
    }
    if replied {
      assert Reached(rx, q, polls, used - 1);
      forall k | 0 <= k < |polls| && GivesUp(|rx|, polls, k) ensures Reached(rx, q, polls, k) {
        TakenGrows(|rx|, polls, used, k + 1);
      }
    } else if expired {
      assert GivesUp(|rx|, polls, used - 1) && !Reached(rx, q, polls, used - 1);
    }
  }

  /** If no deadline passes and the bursts reach the first matching frame, it is the reply. */
  lemma PatienceIsAnswered(rx: seq<Packet>, q: Query, polls: seq<Poll>)
    requires FirstMatch(rx, q) < |rx| && FirstMatch(rx, q) < |polls|
    requires forall k | 0 <= k < |polls| :: polls[k].take >= 1 && !polls[k].expired
    ensures ReplyInTime(rx, q, polls) && !TooLate(rx, q, polls)
  {
    TakesOneEach(|rx|, polls, |polls|);
    assert Reached(rx, q, polls, |polls| - 1);
  }

  lemma {:induction false} FirstMatchOfPrefix(rx: seq<Packet>, q: Query, t: nat)
    requires t <= |rx|
    ensures FirstMatch(rx[..t], q) == Min(t, FirstMatch(rx, q))
    decreases |rx|
  {
    if t != 0 && !Matches(rx[0].data, q) {
      FirstMatchOfPrefix(rx[1..], q, t - 1);
      assert rx[..t][1..] == rx[1..][..t - 1];
    }
  }

  // --- hw_reqresp_batch ---

  /** The batch looks at its deadline only after 64 empty bursts in a row. */
  predicate BatchGivesUp(avail: nat, polls: seq<Poll>, k: nat)
    requires k < |polls|
  {
    Empty(avail, polls, k) && EmptyRow(avail, polls, k + 1) % 64 == 0 && polls[k].expired
  }
}
