/** The waiting loop of a slave SYNC (nc_net.c:457-485). */
module Sync {
  import opened Words

  const NC_ETIMEOUT := 40

  /** One call of `nc_rcvmsg` on the sync socket: whether a sync packet came, and the clock afterwards. */
  datatype Attempt = Attempt(packet: bool, now: int)

  /** All these attempts failed, none of them after the deadline. */
  ghost predicate StillWaiting(start: int, timeout: int, recv: seq<Attempt>) {
    forall j :: 0 <= j < |recv| ==> !recv[j].packet && recv[j].now <= start + timeout
  }

  /** The attempt ends the wait. */
  ghost predicate Decides(start: int, timeout: int, a: Attempt) {
    a.packet || a.now > start + timeout
  }

  /** A sync packet comes while the loop is waiting for it. */
  ghost predicate Answered(start: int, timeout: int, recv: seq<Attempt>) {
    exists k :: 0 <= k < |recv| && recv[k].packet && StillWaiting(start, timeout, recv[..k])
  }

  /**
   The loop on the attempts made so far; `None` while it is still waiting for the next one.  It ends with
   success at the first packet that comes while waiting, and with a timeout only once an attempt has failed
   after `start + timeout`.  Every socket timeout it asks for lasts until `start + timeout` from the clock of the last
   attempt, and is non-negative, whatever the clock does.
   */
  method ReceiveSync(timeout: u32, start: int, recv: seq<Attempt>)
    returns (ret: Option<int>, attempts: nat, waits: seq<int>)
    ensures attempts <= |recv| && StillWaiting(start, timeout, recv[..attempts])
    ensures ret == None <==> attempts == |recv|
    ensures ret == None <==> StillWaiting(start, timeout, recv)
    ensures ret.Some? ==> Decides(start, timeout, recv[attempts])
    ensures ret.Some? ==> ret.value == if recv[attempts].packet then 0 else -NC_ETIMEOUT
    ensures ret == Some(0) <==> Answered(start, timeout, recv)
    ensures |waits| == attempts + 1 && waits[0] == timeout
    ensures forall k :: 0 < k <= attempts ==> recv[k - 1].now + waits[k] == start + timeout && waits[k] >= 0
  {
    attempts := 0;
    waits := [timeout];
    while attempts < |recv|
      invariant attempts <= |recv| && StillWaiting(start, timeout, recv[..attempts])
      invariant |waits| == attempts + 1 && waits[0] == timeout
      invariant forall k :: 0 < k <= attempts ==> recv[k - 1].now + waits[k] == start + timeout && waits[k] >= 0
    {
      var attempt := recv[attempts];
      if attempt.packet {
        return Some(0), attempts, waits;
      }
      var now := attempt.now;
      if start - now + timeout < 0 {
        NotAnswered(start, timeout, recv, attempts);
        return Some(-NC_ETIMEOUT), attempts, waits;
      }
      waits := waits + [start - now + timeout];
      attempts := attempts + 1;
    }
    assert recv[..attempts] == recv;
    ret := None;
  }

  lemma NotAnswered(start: int, timeout: int, recv: seq<Attempt>, k: nat)
    requires k < |recv| && StillWaiting(start, timeout, recv[..k])
    requires !recv[k].packet && Decides(start, timeout, recv[k])
    ensures !Answered(start, timeout, recv)
  {
    if Answered(start, timeout, recv) {
      var j :| 0 <= j < |recv| && recv[j].packet && StillWaiting(start, timeout, recv[..j]);
      AttemptsUnique(start, timeout, recv, j, k);
    }
  }

  lemma WaitingAt(start: int, timeout: int, recv: seq<Attempt>, k: nat, j: nat)
    requires j < k <= |recv| && StillWaiting(start, timeout, recv[..k])
    ensures !Decides(start, timeout, recv[j])
  {
    assert recv[..k][j] == recv[j];
  }

  /** The answer is determined: no two numbers of attempts satisfy the specification of `ReceiveSync`. */
  lemma AttemptsUnique(start: int, timeout: int, recv: seq<Attempt>, j: nat, k: nat)
    requires j < |recv| && StillWaiting(start, timeout, recv[..j]) && Decides(start, timeout, recv[j])
    requires k < |recv| && StillWaiting(start, timeout, recv[..k]) && Decides(start, timeout, recv[k])
    ensures j == k
  {
    hide StillWaiting, Decides;
    if j < k {
      WaitingAt(start, timeout, recv, k, j);
    } else if k < j {
      WaitingAt(start, timeout, recv, j, k);
    }
  }

  /** Every receive that fails takes time. */
  ghost predicate Advances(start: int, recv: seq<Attempt>) {
    && (recv != [] && !recv[0].packet ==> start < recv[0].now)
    && forall k :: 0 < k < |recv| && !recv[k].packet ==> recv[k - 1].now < recv[k].now
  }

  lemma {:induction false} TimePasses(start: int, recv: seq<Attempt>, k: nat)
    requires k < |recv| && Advances(start, recv) && forall j :: 0 <= j <= k ==> !recv[j].packet
    ensures start + k < recv[k].now
  {
    assert !recv[k].packet;
    if k > 0 {
      TimePasses(start, recv, k - 1);
    }
  }

  /** The loop ends: when every failed receive advances the clock, one of `timeout + 1` attempts decides. */
  lemma AnswerComes(start: int, timeout: nat, recv: seq<Attempt>) returns (k: nat)
    requires Advances(start, recv) && |recv| > timeout
    ensures k <= timeout && Decides(start, timeout, recv[k])
  {
    if forall j :: 0 <= j <= timeout ==> !recv[j].packet {
      TimePasses(start, recv, timeout);
      k := timeout;
    } else {
      k :| 0 <= k <= timeout && recv[k].packet;
    }
  }

  /** Without that it need not end: on failed receives that leave the clock standing it goes on, however many. */
  method WaitOnStandingClock(timeout: u32, start: int, failures: nat) returns (ret: Option<int>, waits: seq<int>)
    ensures ret == None
    ensures |waits| == failures + 1 && forall k :: 0 <= k <= failures ==> waits[k] == timeout
  {
    var attempts;
    ret, attempts, waits := ReceiveSync(timeout, start, seq(failures, _ => Attempt(false, start)));
  }
}
